/** The migration that introduces the claims table: it refuses to run when acceptances made
    before it already overlap, and otherwise hands over a database in which the guarantees of
    `AcceptanceRaces` hold. */
module ClaimsMigration {
  import opened RowOrder
  import opened ReconciliationModel
  import opened Acceptance
  import opened AcceptanceRaces
  import opened AcceptedTransactions

  function AcceptedIds(db: Db): set<Id> {
    set id | id in db.decisions && db.decisions[id] && id in db.proposals
  }

  /** What an accepted proposal claims, and nothing for any other. */
  function AcceptedClaims(db: Db, id: Id): seq<Claim> {
    if id in AcceptedIds(db) then ProposalClaims(db.proposals[id].body) else []
  }

  /** Before the migration decisions set the status but wrote no claims. */
  ghost predicate StatusesAgree(db: Db) {
    && (forall id | id in db.decisions :: id in db.proposals)
    && forall id | id in db.proposals ::
         && (db.proposals[id].status == Accepted <==> id in db.decisions && db.decisions[id])
         && (db.proposals[id].status == Rejected <==> id in db.decisions && !db.decisions[id])
  }

  /** No row is accepted twice on one side of the transfer boundary: neither by two acceptances nor
      twice by one. */
  ghost predicate NoOverlap(db: Db) {
    && (forall p | p in AcceptedIds(db) :: ListsNoRowTwice(db.proposals[p].body))
    && forall p, q | p in AcceptedIds(db) && q in AcceptedIds(db) && p != q
                     && SameKind(db.proposals[p].body, db.proposals[q].body) ::
         NameNoCommonRow(db.proposals[p].body, db.proposals[q].body)
  }

  /** The same of the claims. */
  ghost predicate ClaimedOnce(db: Db) {
    && (forall p :: Distinct(AcceptedClaims(db, p)))
    && (forall p, q, c | c in AcceptedClaims(db, p) && c in AcceptedClaims(db, q) :: p == q)
  }

  lemma NoOverlapExactlyWhenClaimedOnce(db: Db)
    ensures NoOverlap(db) <==> ClaimedOnce(db)
  {
    hide ProposalClaims, Distinct, ListsNoRowTwice, SameKind, NameNoCommonRow;
    var ids := AcceptedIds(db);
    forall p | p in ids ensures Distinct(AcceptedClaims(db, p)) <==> ListsNoRowTwice(db.proposals[p].body) {
      ClaimsAreDistinctExactlyWhen(db.proposals[p].body);
    }
    forall p, q | p in ids && q in ids
      ensures (forall c | c in AcceptedClaims(db, p) :: c !in AcceptedClaims(db, q))
              <==> (SameKind(db.proposals[p].body, db.proposals[q].body) ==>
                      NameNoCommonRow(db.proposals[p].body, db.proposals[q].body))
    {
      ClaimsCollideExactlyWhen(db.proposals[p].body, db.proposals[q].body);
    }
    assert forall p | p !in ids :: AcceptedClaims(db, p) == [] && Distinct<Claim>([]) by {
      NothingIsDistinct();
    }
  }

  lemma NothingIsDistinct()
    ensures Distinct<Claim>([])
  {
  }

  class Migration {
    var db: Db
    var hasClaims: bool

    constructor (db: Db)
      ensures this.db == db && !hasClaims
    {
      this.db, hasClaims := db, false;
    }

    /** The rows of the backfill query, in whatever order it returns them. */
    method ClaimsQuery() returns (rows: seq<ClaimRow>)
      ensures Unique(rows) <==> NoOverlap(db)
      ensures forall k :: ClaimsOf(rows, k) == AcceptedClaims(db, k)
      ensures forall r | r in rows :: r.proposal in db.proposals
    {
      hide Backfilled;
      var ids := SelectUnordered(AcceptedIds(db));
      ListingHasNoRepeats(ids);
      rows := [];
      NothingBackfilled(db);
      for i := 0 to |ids|
        invariant Backfilled(db, rows, ids[..i])
      {
        assert ids[i] in Elements(ids);
        assert ids[..i + 1] == ids[..i] + [ids[i]];
        BackfillOneMore(db, rows, ids[..i], ids[i]);
        rows := rows + RowsFor(ids[i], ProposalClaims(db.proposals[ids[i]].body));
      }
      assert ids[..|ids|] == ids;
      AllBackfilled(db, rows, ids);
      UniqueMeansClaimedOnce(db, rows);
      NoOverlapExactlyWhenClaimedOnce(db);
    }

    /** GROUP BY ... HAVING count(*) > 1. */
    static method HasConflicts(rows: seq<ClaimRow>) returns (found: bool)
      ensures found <==> !Unique(rows)
    {
      for i := 0 to |rows|
        invariant Unique(rows[..i])
      {
        if Claimed(rows[..i], rows[i].claim) {
          return true;
        }
        assert forall j | 0 <= j < i :: rows[..i][j] in rows[..i];
      }
      assert rows[..|rows|] == rows;
      found := false;
    }

    /** Succeeds exactly when no acceptances overlap, and then every invariant of the running
        system holds; otherwise nothing changes. */
    method Upgrade() returns (done: bool)
      requires db.claims == [] && !hasClaims
      modifies this
      ensures done <==> NoOverlap(old(db))
      ensures !done ==> db == old(db) && !hasClaims
      ensures done ==> hasClaims && db.proposals == old(db).proposals && db.decisions == old(db).decisions
      ensures done && StatusesAgree(old(db)) ==> Inv(System(db, map[]))
    {
      hide NoOverlap, ProposalClaims, Unique;
      var rows := ClaimsQuery();
      var conflicts := HasConflicts(rows);
      if conflicts {
        return false;
      }
      hasClaims := true;
      db := db.(claims := rows);
      done := true;
    }
  }

  /** The rows of the decisions `ids`, and no others. */
  ghost predicate Backfilled(db: Db, rows: seq<ClaimRow>, ids: seq<Id>) {
    && (forall k :: ClaimsOf(rows, k) == if k in ids then AcceptedClaims(db, k) else [])
    && forall r | r in rows :: r.proposal in ids
  }

  lemma NothingBackfilled(db: Db)
    ensures Backfilled(db, [], [])
  {
  }

  lemma BackfillOneMore(db: Db, rows: seq<ClaimRow>, ids: seq<Id>, id: Id)
    requires Backfilled(db, rows, ids) && id !in ids && id in AcceptedIds(db)
    ensures Backfilled(db, rows + RowsFor(id, ProposalClaims(db.proposals[id].body)), ids + [id])
  {
    hide ProposalClaims, ClaimsOf;
    var claims := ProposalClaims(db.proposals[id].body);
    forall k ensures ClaimsOf(rows + RowsFor(id, claims), k) == if k in ids + [id] then AcceptedClaims(db, k) else [] {
      ClaimsOfAppended(rows, id, claims, k);
      assert [] + claims == claims;
    }
  }

  lemma AllBackfilled(db: Db, rows: seq<ClaimRow>, ids: seq<Id>)
    requires Backfilled(db, rows, ids) && Elements(ids) == AcceptedIds(db)
    ensures forall k :: ClaimsOf(rows, k) == AcceptedClaims(db, k)
    ensures forall r | r in rows :: r.proposal in db.proposals
  {
    hide ProposalClaims, ClaimsOf;
    assert forall k :: k in ids <==> k in Elements(ids);
  }

  lemma {:induction false} ClaimsOfHaveRows(rows: seq<ClaimRow>, i: nat, j: nat)
    requires i < j < |rows| && rows[i] == rows[j]
    ensures !Distinct(ClaimsOf(rows, rows[i].proposal))
  {
    var front, id := rows[..|rows| - 1], rows[i].proposal;
    if j < |front| {
      ClaimsOfHaveRows(front, i, j);
      var a, b :| 0 <= a < b < |ClaimsOf(front, id)| && ClaimsOf(front, id)[a] == ClaimsOf(front, id)[b];
      assert ClaimsOf(rows, id)[a] == ClaimsOf(rows, id)[b];
    } else {
      var a := RowIsClaimed(front, i);
      assert ClaimsOf(rows, id)[a] == ClaimsOf(rows, id)[|ClaimsOf(front, id)|];
    }
  }

  lemma {:induction false} RowIsClaimed(rows: seq<ClaimRow>, i: nat) returns (a: nat)
    requires i < |rows|
    ensures a < |ClaimsOf(rows, rows[i].proposal)| && ClaimsOf(rows, rows[i].proposal)[a] == rows[i].claim
  {
    if i == |rows| - 1 {
      a := |ClaimsOf(rows[..|rows| - 1], rows[i].proposal)|;
    } else {
      a := RowIsClaimed(rows[..|rows| - 1], i);
    }
  }

  lemma UniqueMeansClaimedOnce(db: Db, rows: seq<ClaimRow>)
    requires forall k :: ClaimsOf(rows, k) == AcceptedClaims(db, k)
    ensures Unique(rows) <==> ClaimedOnce(db)
  {
    hide AcceptedClaims, ClaimsOf, AcceptedIds;
    if i, j :| 0 <= i < j < |rows| && rows[i].claim == rows[j].claim {
      var p, q, c := rows[i].proposal, rows[j].proposal, rows[i].claim;
      assert rows[i] in rows && rows[j] in rows;
      if p == q {
        ClaimsOfHaveRows(rows, i, j);
      } else {
        var a := RowIsClaimed(rows, i);
        var b := RowIsClaimed(rows, j);
        assert c in ClaimsOf(rows, p) && c in ClaimsOf(rows, q);
      }
    } else {
      forall p ensures Distinct(AcceptedClaims(db, p)) {
        ClaimsOfAreDistinct(rows, p);
      }
      forall p, q, c | c in AcceptedClaims(db, p) && c in AcceptedClaims(db, q) ensures p == q {
        var i := ClaimHasItsRow(rows, p, c);
        var j := ClaimHasItsRow(rows, q, c);
        OneHolder(rows, i, j);
      }
    }
  }
}
