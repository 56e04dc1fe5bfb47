/** A Stage 5C pass in terms of the rows themselves: which ledger rows a bank row is given, with
    what score and label, and when it is given none. */
module SuggestionEvidence {
  import opened RowOrder
  import opened ReconciliationModel
  import opened OneToOneMatching
  import opened OneToOneProperties
  import SoleSuggestions

  // ---------------------------------------------------------------- a pair of rows

  /** Same entity, account and currency, money moving the same way, booked, near in time and
      amount. */
  predicate Fits(b: BankRow, l: LedgerRow, cfg: Config) {
    && l.entity == b.entity && l.account == b.account && l.currency == b.currency && l.posted
    && ((l.direction == Inflow && b.entry == Credit) || (l.direction == Outflow && b.entry == Debit))
    && -cfg.dateToleranceDays <= l.date - b.date <= cfg.dateToleranceDays
    && -cfg.amountTolerancePct * b.amount as real
       <= 100.0 * (l.amount - b.amount) as real <= cfg.amountTolerancePct * b.amount as real
  }

  predicate CommonReference(b: BankRow, l: LedgerRow) {
    exists r | r in b.refs :: r in l.refs
  }

  predicate PartOf(part: string, text: string) {
    part != "" && exists i | 0 <= i <= |text| :: part <= text[i..]
  }

  /** A reference of one row is contained in one of the other. */
  predicate PartialReference(b: BankRow, l: LedgerRow) {
    exists x, y | x in b.refs && y in l.refs :: PartOf(x, y) || PartOf(y, x)
  }

  /** Three in five of the bank row's words occur in one text of the ledger row. */
  predicate CommonWords(b: BankRow, l: LedgerRow) {
    b.tokens != {} && exists t | t in l.texts :: t != {} && 5 * |b.tokens * t| >= 3 * |b.tokens|
  }

  function Points(b: BankRow, l: LedgerRow): int {
    10
    + (if b.amount == l.amount then 40 else 20)
    + (if b.date == l.date then 15 else 5)
    + (if CommonReference(b, l) then 30 else if PartialReference(b, l) then 15 else 0)
    + (if CommonWords(b, l) then 5 else 0)
  }

  predicate LabelledExact(b: BankRow, l: LedgerRow) {
    b.amount == l.amount && b.date == l.date && CommonReference(b, l)
  }

  /** Seventy points, and above the high-value limit some reference as well. */
  predicate Strong(b: BankRow, l: LedgerRow, cfg: Config) {
    && Points(b, l) >= 70
    && (cfg.highValueThreshold == None || b.amount <= cfg.highValueThreshold.value
        || CommonReference(b, l) || PartialReference(b, l))
  }

  lemma PartsAreContained(x: string, y: string)
    ensures PartOf(x, y) <==> x != "" && Contains(y, x)
  {
    forall i | 0 <= i <= |y| ensures x <= y[i..] <==> OccursAt(y, x, i) {
      assert i <= |y| - |x| ==> y[i..][..|x|] == y[i..i + |x|];
    }
  }

  lemma PartialReferencesOverlap(b: BankRow, l: LedgerRow)
    ensures PartialReference(b, l) <==> Overlaps(b.refs, l.refs)
  {
    hide PartOf, Contains;
    forall x, y ensures PartOf(x, y) <==> x != "" && Contains(y, x) {
      PartsAreContained(x, y);
    }
    if x, y :| x in b.refs && y in l.refs && (PartOf(x, y) || PartOf(y, x)) {
      NoPartOfNothing(x, y);
      NoPartOfNothing(y, x);
    }
  }

  lemma NoPartOfNothing(x: string, y: string)
    ensures PartOf(x, y) ==> y != ""
  {
  }

  lemma PointsAreTheScore(b: BankRow, l: LedgerRow, cfg: Config)
    requires l.direction == CompatibleDirection(b.entry)
    ensures TotalScore(b, l) == Points(b, l)
    ensures Rated(b, l) <==> Points(b, l) >= 40
    ensures IsExact(b, l) <==> LabelledExact(b, l)
    ensures TierOf(b, l, cfg) == if Strong(b, l, cfg) then AutoMatch else Review
  {
    hide Overlaps, PartialReference;
    PartialReferencesOverlap(b, l);
    assert CommonReference(b, l) <==> b.refs * l.refs != {} by {
      if CommonReference(b, l) {
        var r :| r in b.refs && r in l.refs;
        assert r in b.refs * l.refs;
      }
    }
    OverlapsNeedsRows(b.refs, l.refs);
    assert CommonWords(b, l) <==> NarrationPoints(b.tokens, l.texts) == 5;
  }

  lemma OverlapsNeedsRows(a: set<string>, b: set<string>)
    ensures Overlaps(a, b) ==> a != {} && b != {}
  {
  }

  lemma ProductOverHundred(amount: real, pct: real)
    ensures 100.0 * (amount * (pct / 100.0)) == pct * amount
  {
  }

  lemma FitsExactlyWhenCandidate(b: BankRow, l: LedgerRow, cfg: Config, claimed: set<Id>)
    ensures IsCandidate(b, l, cfg, claimed) <==> Fits(b, l, cfg) && l.id !in claimed
  {
    ProductOverHundred(b.amount as real, cfg.amountTolerancePct);
  }

  // ---------------------------------------------------------------- the rows of one bank row

  /** A ledger row that fits, reaches forty points and is not held. */
  predicate OnOffer(b: BankRow, ledgers: LedgerTable, cfg: Config, held: set<Id>, t: Id) {
    t in ledgers && Fits(b, ledgers[t], cfg) && Points(b, ledgers[t]) >= 40 && t !in held
  }

  ghost predicate Unbeaten(b: BankRow, ledgers: LedgerTable, cfg: Config, held: set<Id>, t: Id) {
    && OnOffer(b, ledgers, cfg, held, t)
    && forall u | OnOffer(b, ledgers, cfg, held, u) :: Points(b, ledgers[u]) <= Points(b, ledgers[t])
  }

  /** A suggestion of an unbeaten row, with its score and label, or a statement that nothing is on
      offer. */
  ghost predicate RightRow(x: Suggestion, run: Id, b: BankRow, ledgers: LedgerTable, cfg: Config, held: set<Id>) {
    && x.run == run && x.bank == b.id && x.status == Pending
    && match x.ledger
       case None => x.tier == NotFound && x.score == 0 && !x.exact && forall t :: !OnOffer(b, ledgers, cfg, held, t)
       case Some(t) =>
         && Unbeaten(b, ledgers, cfg, held, t)
         && x.score == Points(b, ledgers[t]) && x.exact == LabelledExact(b, ledgers[t])
         && x.tier == (if exists u :: u != t && Unbeaten(b, ledgers, cfg, held, u) then Tied
                       else if Strong(b, ledgers[t], cfg) then AutoMatch else Review)
  }

  /** Exactly the unbeaten rows are suggested, each once; one row says so when there is none. */
  ghost predicate RightRows(
    own: seq<Suggestion>, run: Id, b: BankRow, ledgers: LedgerTable, cfg: Config, held: set<Id>)
  {
    && own != []
    && (forall x | x in own :: RightRow(x, run, b, ledgers, cfg, held))
    && (forall t | Unbeaten(b, ledgers, cfg, held, t) :: exists x :: x in own && x.ledger == Some(t))
    && forall i, j | 0 <= i < j < |own| :: own[i].ledger != own[j].ledger
  }

  lemma RatedAreOnOffer(b: BankRow, ledgers: LedgerTable, cfg: Config, held: set<Id>, l: LedgerRow)
    ensures l in RatedRows(b, Candidates(b, ledgers, cfg, held))
            <==> l.id in ledgers && ledgers[l.id] == l && OnOffer(b, ledgers, cfg, held, l.id)
    ensures l in RatedRows(b, Candidates(b, ledgers, cfg, held)) ==> TotalScore(b, l) == Points(b, l)
  {
    hide Points, Fits, IsCandidate;
    FitsExactlyWhenCandidate(b, l, cfg, held);
    if Fits(b, l, cfg) {
      FittingMovesTheSameWay(b, l, cfg);
      PointsAreTheScore(b, l, cfg);
    }
    var candidates := Candidates(b, ledgers, cfg, held);
    if l in RatedRows(b, candidates) {
      var k :| k in candidates && Rated(b, candidates[k]) && candidates[k] == l;
    }
  }

  lemma FittingMovesTheSameWay(b: BankRow, l: LedgerRow, cfg: Config)
    requires Fits(b, l, cfg)
    ensures l.direction == CompatibleDirection(b.entry)
  {
  }

  lemma BestAreUnbeaten(b: BankRow, ledgers: LedgerTable, cfg: Config, held: set<Id>, l: LedgerRow)
    ensures l in Best(b, Candidates(b, ledgers, cfg, held))
            <==> l.id in ledgers && ledgers[l.id] == l && Unbeaten(b, ledgers, cfg, held, l.id)
  {
    hide Fits, RatedRows, Candidates, TotalScore, Points;
    var rated := RatedRows(b, Candidates(b, ledgers, cfg, held));
    forall m ensures m in rated <==> m.id in ledgers && ledgers[m.id] == m && OnOffer(b, ledgers, cfg, held, m.id)
             ensures m in rated ==> TotalScore(b, m) == Points(b, m)
    {
      RatedAreOnOffer(b, ledgers, cfg, held, m);
    }
    if l in Best(b, Candidates(b, ledgers, cfg, held)) {
      forall u | OnOffer(b, ledgers, cfg, held, u) ensures Points(b, ledgers[u]) <= Points(b, l) {
        assert ledgers[u] in rated;
      }
    }
  }

  lemma UnbeatenIsStored(b: BankRow, ledgers: LedgerTable, cfg: Config, held: set<Id>, t: Id)
    requires Unbeaten(b, ledgers, cfg, held, t)
    ensures t in ledgers && ledgers[t].id == t && Fits(b, ledgers[t], cfg)
  {
  }

  /** What is on offer has a best. */
  lemma SomethingIsUnbeaten(b: BankRow, ledgers: LedgerTable, cfg: Config, held: set<Id>, t: Id)
    requires OnOffer(b, ledgers, cfg, held, t)
    ensures exists u :: Unbeaten(b, ledgers, cfg, held, u)
    decreases 101 - Points(b, ledgers[t])
  {
    hide Fits, PartialReference, CommonReference, CommonWords;
    if !Unbeaten(b, ledgers, cfg, held, t) {
      var u :| OnOffer(b, ledgers, cfg, held, u) && Points(b, ledgers[u]) > Points(b, ledgers[t]);
      SomethingIsUnbeaten(b, ledgers, cfg, held, u);
    }
  }

  /** The unbeaten rows of the ledger, as the pass lists them. */
  ghost predicate ListsUnbeaten(b: BankRow, ledgers: LedgerTable, cfg: Config, held: set<Id>, top: seq<LedgerRow>) {
    && (forall i | 0 <= i < |top| ::
          top[i].id in ledgers && ledgers[top[i].id] == top[i] && Unbeaten(b, ledgers, cfg, held, top[i].id))
    && (forall t | Unbeaten(b, ledgers, cfg, held, t) :: exists i :: 0 <= i < |top| && top[i].id == t)
    && forall i, j | 0 <= i < j < |top| :: top[i].id != top[j].id
  }

  lemma TopHasTheBest(b: BankRow, candidates: LedgerTable, l: LedgerRow)
    ensures l in Top(b, candidates) <==> l in Best(b, candidates)
  {
    assert l in Top(b, candidates) <==> l in Elements(Top(b, candidates));
  }

  lemma TopListsUnbeaten(b: BankRow, ledgers: LedgerTable, cfg: Config, held: set<Id>)
    ensures ListsUnbeaten(b, ledgers, cfg, held, Top(b, Candidates(b, ledgers, cfg, held)))
  {
    hide Top, Candidates, Best, Unbeaten, TotalScore, Rated;
    var candidates := Candidates(b, ledgers, cfg, held);
    var top := Top(b, candidates);
    TopRowsTie(b, candidates);
    forall l ensures l in top <==> l.id in ledgers && ledgers[l.id] == l && Unbeaten(b, ledgers, cfg, held, l.id) {
      TopHasTheBest(b, candidates, l);
      BestAreUnbeaten(b, ledgers, cfg, held, l);
    }
    assert forall i | 0 <= i < |top| :: top[i] in top;
    forall t | Unbeaten(b, ledgers, cfg, held, t) ensures exists i :: 0 <= i < |top| && top[i].id == t {
      UnbeatenIsStored(b, ledgers, cfg, held, t);
      assert ledgers[t] in top;
    }
  }

  lemma RowOfUnbeaten(
    run: Id, b: BankRow, ledgers: LedgerTable, cfg: Config, held: set<Id>, top: seq<LedgerRow>, i: int)
    requires ListsUnbeaten(b, ledgers, cfg, held, top) && 0 <= i < |top|
    ensures RightRow(Produce(run, b, top, cfg).rows[i], run, b, ledgers, cfg, held)
    ensures Produce(run, b, top, cfg).rows[i].ledger == Some(top[i].id)
  {
    hide Points, Strong, LabelledExact, Unbeaten, TotalScore, TierOf, IsExact;
    var t := top[i].id;
    UnbeatenIsStored(b, ledgers, cfg, held, t);
    FittingMovesTheSameWay(b, ledgers[t], cfg);
    PointsAreTheScore(b, ledgers[t], cfg);
    if |top| >= 2 {
      var j := if i == 0 then 1 else 0;
      assert top[j].id != t && Unbeaten(b, ledgers, cfg, held, top[j].id);
    }
  }

  /** What a bank row is given from the ledger rows that are not held. */
  lemma OwnRowsAreRight(run: Id, b: BankRow, ledgers: LedgerTable, cfg: Config, held: set<Id>)
    ensures RightRows(Produce(run, b, Top(b, Candidates(b, ledgers, cfg, held)), cfg).rows, run, b, ledgers, cfg, held)
  {
    hide Top, Candidates, Unbeaten, TotalScore, TierOf, IsExact, OnOffer;
    TopListsUnbeaten(b, ledgers, cfg, held);
    var top := Top(b, Candidates(b, ledgers, cfg, held));
    var own := Produce(run, b, top, cfg).rows;
    if top == [] {
      forall t ensures !OnOffer(b, ledgers, cfg, held, t) {
        if OnOffer(b, ledgers, cfg, held, t) {
          SomethingIsUnbeaten(b, ledgers, cfg, held, t);
        }
      }
    } else {
      assert |own| == |top|;
      forall i | 0 <= i < |own|
        ensures RightRow(own[i], run, b, ledgers, cfg, held) && own[i].ledger == Some(top[i].id)
      {
        RowOfUnbeaten(run, b, ledgers, cfg, held, top, i);
      }
      forall t | Unbeaten(b, ledgers, cfg, held, t) ensures exists x :: x in own && x.ledger == Some(t) {
        var i :| 0 <= i < |top| && top[i].id == t;
        assert own[i] in own;
      }
    }
  }

  // ---------------------------------------------------------------- what is held at a turn

  /** A pending or accepted suggestion made before the pass names this ledger row of the entity. */
  predicate NamedBefore(flushed: seq<Suggestion>, ledgers: LedgerTable, entity: Id, t: Id) {
    && t in ledgers && ledgers[t].entity == entity
    && exists x | x in flushed :: x.ledger == Some(t) && (x.status == Pending || x.status == Accepted)
  }

  /** All that was added about this bank row is a suggestion of `t`. */
  ghost predicate GivenAlone(added: seq<Suggestion>, bank: Id, t: Id) {
    && (exists x :: x in added && x.bank == bank)
    && forall x | x in added && x.bank == bank :: x.ledger == Some(t)
  }

  ghost predicate GivenToOne(added: seq<Suggestion>, banks: seq<BankRow>, t: Id) {
    exists i :: 0 <= i < |banks| && GivenAlone(added, banks[i].id, t)
  }

  lemma OwnRowsClaim(rows: seq<Suggestion>, own: seq<Suggestion>, run: Id, bank: Id, t: Id)
    requires forall x | x in rows :: !About(x, run, bank)
    requires own != [] && forall x | x in own :: About(x, run, bank)
    requires (exists x :: x in own && x.ledger == None) ==> |own| == 1
    requires forall i, j | 0 <= i < j < |own| :: own[i].ledger != own[j].ledger
    ensures t in Claim({}, Offered(rows + own, run, bank)) <==> GivenAlone(own, bank, t)
  {
    var newly := Offered(rows + own, run, bank);
    assert forall x | x in own :: x in rows + own;
    assert own[0] in own;
    if |own| == 1 {
      if own[0].ledger.Some? {
        assert newly == {own[0].ledger.value};
      } else {
        assert newly == {};
      }
    } else {
      assert own[1] in own && own[0].ledger.Some? && own[1].ledger.Some?;
      TwoElements(newly, own[0].ledger.value, own[1].ledger.value);
    }
  }

  lemma OwnRowsStandAlone(added: seq<Suggestion>, own: seq<Suggestion>, front: seq<BankRow>, b: BankRow, t: Id)
    requires forall x | x in added :: x.bank != b.id
    requires own != [] && forall x | x in own :: x.bank == b.id
    requires forall i | 0 <= i < |front| :: front[i].id != b.id
    ensures GivenToOne(added + own, front + [b], t) <==> GivenToOne(added, front, t) || GivenAlone(own, b.id, t)
  {
    var banks := front + [b];
    assert own[0] in own;
    assert GivenAlone(added + own, b.id, t) <==> GivenAlone(own, b.id, t) by {
      assert forall x | x in own :: x in added + own;
      assert forall x | x in added + own && x.bank == b.id :: x in own;
    }
    forall i | 0 <= i < |front| ensures GivenAlone(added + own, front[i].id, t) <==> GivenAlone(added, front[i].id, t) {
      assert forall x: Suggestion | x.bank == front[i].id :: x in added + own <==> x in added;
    }
    hide GivenAlone;
    assert forall i | 0 <= i < |front| :: banks[i] == front[i];
    assert banks[|front|] == b;
  }

  /** The claimed set of a pass: what it started with and, if it sees its own rows, what it gave to
      one bank row alone. */
  lemma {:induction false} ClaimedAfterRows(
    start: Pass, run: Id, banks: seq<BankRow>, ledgers: LedgerTable, cfg: Config, flushed: seq<Suggestion>,
    sees: bool, t: Id)
    requires DifferentBanks(banks) && FreshRun(flushed, run) && start.added == []
    ensures var p := AfterRows(start, run, banks, ledgers, cfg, flushed, sees);
            t in p.claimed <==> t in start.claimed || (sees && GivenToOne(p.added, banks, t))
  {
    hide Produce, Top, Candidates, GivenAlone, Offered, RightRow;
    if banks != [] {
      var front, b := banks[..|banks| - 1], banks[|banks| - 1];
      ClaimedAfterRows(start, run, front, ledgers, cfg, flushed, sees, t);
      FreshPassSkipsNothing(start, run, front, ledgers, cfg, flushed, sees);
      var p := AfterRows(start, run, front, ledgers, cfg, flushed, sees);
      ClaimedAfterOneMore(p, run, front, b, ledgers, cfg, flushed, sees, t);
      assert banks == front + [b];
    }
  }

  lemma ClaimedAfterOneMore(
    p: Pass, run: Id, front: seq<BankRow>, b: BankRow, ledgers: LedgerTable, cfg: Config, flushed: seq<Suggestion>,
    sees: bool, t: Id)
    requires AddedFor(p.added, run, front) && FreshRun(flushed, run)
    requires forall i | 0 <= i < |front| :: front[i].id != b.id
    ensures var q := AfterRow(p, run, b, ledgers, cfg, flushed, sees);
            && (t in q.claimed <==> t in p.claimed || (sees && GivenAlone(OwnRows(p, run, b, ledgers, cfg), b.id, t)))
            && (GivenToOne(q.added, front + [b], t)
                <==> GivenToOne(p.added, front, t) || GivenAlone(OwnRows(p, run, b, ledgers, cfg), b.id, t))
  {
    hide Produce, Top, Candidates, GivenAlone, GivenToOne, RightRow;
    var own := OwnRows(p, run, b, ledgers, cfg);
    OwnRowsAreRight(run, b, ledgers, cfg, p.claimed);
    OwnRowsAbout(own, run, b, ledgers, cfg, p.claimed);
    FreshRowStep(p, run, front, b, ledgers, cfg, flushed, sees);
    OwnRowsStandAlone(p.added, own, front, b, t);
    ConcatAssociates(flushed, p.added, own);
    if sees {
      OwnRowsClaim(flushed + p.added, own, run, b.id, t);
    } else {
      NothingOffered(flushed, run, b.id);
    }
  }

  ghost function OwnRows(p: Pass, run: Id, b: BankRow, ledgers: LedgerTable, cfg: Config): seq<Suggestion> {
    Produce(run, b, Top(b, Candidates(b, ledgers, cfg, p.claimed)), cfg).rows
  }

  lemma OwnRowsAbout(
    own: seq<Suggestion>, run: Id, b: BankRow, ledgers: LedgerTable, cfg: Config, held: set<Id>)
    requires RightRows(own, run, b, ledgers, cfg, held)
    ensures own != [] && forall x | x in own :: About(x, run, b.id)
    ensures (exists x :: x in own && x.ledger == None) ==> |own| == 1
    ensures forall i, j | 0 <= i < j < |own| :: own[i].ledger != own[j].ledger
  {
    hide OnOffer;
    forall x | x in own
      ensures if x.ledger.Some? then OnOffer(b, ledgers, cfg, held, x.ledger.value)
              else forall t :: !OnOffer(b, ledgers, cfg, held, t)
    {
      assert RightRow(x, run, b, ledgers, cfg, held);
    }
    if x :| x in own && x.ledger == None {
      assert forall t :: !OnOffer(b, ledgers, cfg, held, t);
      assert forall k | 0 <= k < |own| :: own[k] in own && own[k].ledger.None?;
      assert own[0].ledger == own[|own| - 1].ledger;
    }
  }

  // ---------------------------------------------------------------- a whole pass

  predicate Earlier(c: BankRow, b: BankRow) {
    c.date < b.date || (c.date == b.date && c.id < b.id)
  }

  /** What a bank row cannot be given: ledger rows named before the pass and, when the pass sees its
      own rows, those it gave to an earlier bank row alone. */
  ghost function HeldAt(
    b: BankRow, banks: set<BankRow>, ledgers: LedgerTable, flushed: seq<Suggestion>, added: seq<Suggestion>,
    sees: bool): set<Id>
  {
    set t | t in ledgers
            && (NamedBefore(flushed, ledgers, b.entity, t)
                || (sees && exists c :: c in banks && Earlier(c, b) && GivenAlone(added, c.id, t)))
  }

  lemma PlaceInOrder(banks: BankTable, scope: Scope, b: BankRow) returns (k: nat)
    requires b in banks.Values && InScope(b, scope)
    ensures var rows := InOrder(ScopeRows(banks, scope), BankKey()); k < |rows| && rows[k] == b
  {
    var rows := InOrder(ScopeRows(banks, scope), BankKey());
    assert b in Elements(rows);
    k :| 0 <= k < |rows| && rows[k] == b;
  }

  lemma PlacesFollowDates(rows: seq<BankRow>, i: nat, k: nat)
    requires Ascending(rows, BankKey()) && i < |rows| && k < |rows|
    ensures i < k <==> Earlier(rows[i], rows[k])
  {
    assert i < k ==> Before(BankKey()(rows[i]), BankKey()(rows[k]));
    assert k < i ==> Before(BankKey()(rows[k]), BankKey()(rows[i]));
  }

  /** Given to one of the first `k` bank rows alone means given to an earlier one alone. */
  lemma EarlierGifts(rows: seq<BankRow>, few: seq<Suggestion>, all: seq<Suggestion>, k: nat, t: Id)
    requires Ascending(rows, BankKey()) && k < |rows|
    requires forall i | 0 <= i < k :: GivenAlone(few, rows[i].id, t) <==> GivenAlone(all, rows[i].id, t)
    ensures GivenToOne(few, rows[..k], t)
            <==> exists c :: c in Elements(rows) && Earlier(c, rows[k]) && GivenAlone(all, c.id, t)
  {
    hide GivenAlone, Earlier, Ascending;
    if i :| 0 <= i < k && GivenAlone(few, rows[..k][i].id, t) {
      PlacesFollowDates(rows, i, k);
      assert rows[i] in Elements(rows) && Earlier(rows[i], rows[k]) && GivenAlone(all, rows[i].id, t);
    }
    if c :| c in Elements(rows) && Earlier(c, rows[k]) && GivenAlone(all, c.id, t) {
      var i :| 0 <= i < |rows| && rows[i] == c;
      PlacesFollowDates(rows, i, k);
      assert rows[..k][i] == c;
    }
  }

  /** The rows about one of the first bank rows are the same after them as after all. */
  lemma GivenAloneEarly(
    start: Pass, run: Id, rows: seq<BankRow>, ledgers: LedgerTable, cfg: Config, flushed: seq<Suggestion>, sees: bool,
    k: nat, i: nat, t: Id)
    requires DifferentBanks(rows) && FreshRun(flushed, run) && start.added == [] && i < k <= |rows|
    ensures GivenAlone(AfterRows(start, run, rows[..k], ledgers, cfg, flushed, sees).added, rows[i].id, t)
            <==> GivenAlone(AfterRows(start, run, rows, ledgers, cfg, flushed, sees).added, rows[i].id, t)
  {
    hide Produce, Top, Candidates, WellShaped;
    var few := AfterRows(start, run, rows[..k], ledgers, cfg, flushed, sees).added;
    var all := AfterRows(start, run, rows, ledgers, cfg, flushed, sees).added;
    PassShape(start, run, rows, ledgers, cfg, flushed, sees, i);
    PassShape(start, run, rows[..k], ledgers, cfg, flushed, sees, i);
    assert rows[..k][..i] == rows[..i];
    FreshPassSkipsNothing(start, run, rows, ledgers, cfg, flushed, sees);
    FreshPassSkipsNothing(start, run, rows[..k], ledgers, cfg, flushed, sees);
    hide AfterRows;
    SameRowsSameGift(flushed, few, all, run, rows[i].id, t);
  }

  lemma SameRowsSameGift(
    flushed: seq<Suggestion>, few: seq<Suggestion>, all: seq<Suggestion>, run: Id, bank: Id, t: Id)
    requires FreshRun(flushed, run) && forall x | x in few + all :: x.run == run
    requires RowsAbout(flushed + few, run, bank) == RowsAbout(flushed + all, run, bank)
    ensures GivenAlone(few, bank, t) <==> GivenAlone(all, bank, t)
  {
    var own := RowsAbout(flushed + few, run, bank);
    hide RowsAbout;
    assert forall x | x in few :: x in few + all;
    assert forall x | x in all :: x in few + all;
    assert forall x: Suggestion | x.bank == bank :: x in few <==> x in own;
    assert forall x: Suggestion | x.bank == bank :: x in all <==> x in own;
  }

  lemma NamedBeforeIsClaimed(flushed: seq<Suggestion>, ledgers: LedgerTable, entity: Id, t: Id)
    ensures t in AlreadyClaimed(flushed, ledgers, entity) <==> NamedBefore(flushed, ledgers, entity, t)
  {
  }

  lemma HeldWhenClaimed(
    run: Id, scope: Scope, banks: BankTable, ledgers: LedgerTable, cfg: Config, flushed: seq<Suggestion>,
    sees: bool, k: nat, t: Id)
    requires FreshRun(flushed, run) && k < |InOrder(ScopeRows(banks, scope), BankKey())|
    requires t in ledgers
    ensures var rows := InOrder(ScopeRows(banks, scope), BankKey());
            var start := Pass([], AlreadyClaimed(flushed, ledgers, scope.entity), 0, 0, 0, 0);
            var added := AfterRows(start, run, rows, ledgers, cfg, flushed, sees).added;
            t in AfterRows(start, run, rows[..k], ledgers, cfg, flushed, sees).claimed
            <==> t in HeldAt(rows[k], ScopeRows(banks, scope), ledgers, flushed, added, sees)
  {
    var rows := InOrder(ScopeRows(banks, scope), BankKey());
    var start := Pass([], AlreadyClaimed(flushed, ledgers, scope.entity), 0, 0, 0, 0);
    var all := AfterRows(start, run, rows, ledgers, cfg, flushed, sees).added;
    var few := AfterRows(start, run, rows[..k], ledgers, cfg, flushed, sees).added;
    SoleSuggestions.ScopeRowsAreDistinct(banks, scope);
    ClaimedAfterRows(start, run, rows[..k], ledgers, cfg, flushed, sees, t);
    NamedBeforeIsClaimed(flushed, ledgers, scope.entity, t);
    assert rows[k] in Elements(rows);
    InOrderAscends(ScopeRows(banks, scope), BankKey());
    hide AfterRows, GivenAlone, GivenToOne, InOrder, NamedBefore, AlreadyClaimed, Earlier, Ascending, ScopeRows;
    forall i | 0 <= i < k ensures GivenAlone(few, rows[i].id, t) <==> GivenAlone(all, rows[i].id, t) {
      GivenAloneEarly(start, run, rows, ledgers, cfg, flushed, sees, k, i, t);
    }
    EarlierGifts(rows, few, all, k, t);
  }

  lemma SameOfferSameRows(
    own: seq<Suggestion>, run: Id, b: BankRow, ledgers: LedgerTable, cfg: Config, held: set<Id>, other: set<Id>)
    requires RightRows(own, run, b, ledgers, cfg, held)
    requires forall t | t in ledgers :: t in held <==> t in other
    ensures RightRows(own, run, b, ledgers, cfg, other)
  {
    hide Fits, Points, Strong, LabelledExact;
    assert forall t :: OnOffer(b, ledgers, cfg, held, t) <==> OnOffer(b, ledgers, cfg, other, t);
    hide OnOffer;
    assert forall t :: Unbeaten(b, ledgers, cfg, held, t) <==> Unbeaten(b, ledgers, cfg, other, t);
    hide Unbeaten;
    assert forall x | x in own :: RightRow(x, run, b, ledgers, cfg, other);
  }

  lemma PassGivesOwnRows(
    start: Pass, run: Id, rows: seq<BankRow>, ledgers: LedgerTable, cfg: Config, flushed: seq<Suggestion>, sees: bool,
    k: nat)
    requires DifferentBanks(rows) && FreshRun(flushed, run) && start.added == [] && k < |rows|
    ensures RowsAbout(AfterRows(start, run, rows, ledgers, cfg, flushed, sees).added, run, rows[k].id)
            == OwnRows(AfterRows(start, run, rows[..k], ledgers, cfg, flushed, sees), run, rows[k], ledgers, cfg)
  {
    hide AfterRows, Produce, Top, Candidates, WellShaped, RowsAbout;
    var added := AfterRows(start, run, rows, ledgers, cfg, flushed, sees).added;
    PassShape(start, run, rows, ledgers, cfg, flushed, sees, k);
    RowsAboutConcat(flushed, added, run, rows[k].id);
    RowsAboutAll(flushed, run, rows[k].id);
    assert [] + RowsAbout(added, run, rows[k].id) == RowsAbout(added, run, rows[k].id);
  }

  lemma TurnIsRight(
    run: Id, scope: Scope, banks: BankTable, ledgers: LedgerTable, cfg: Config, flushed: seq<Suggestion>,
    sees: bool, k: nat)
    requires FreshRun(flushed, run) && k < |InOrder(ScopeRows(banks, scope), BankKey())|
    ensures var rows := InOrder(ScopeRows(banks, scope), BankKey());
            var start := Pass([], AlreadyClaimed(flushed, ledgers, scope.entity), 0, 0, 0, 0);
            var added := AfterRows(start, run, rows, ledgers, cfg, flushed, sees).added;
            RightRows(RowsAbout(added, run, rows[k].id), run, rows[k], ledgers, cfg,
                      HeldAt(rows[k], ScopeRows(banks, scope), ledgers, flushed, added, sees))
  {
    hide AfterRows, RightRows, HeldAt, InOrder, AlreadyClaimed, OwnRows, RowsAbout, Elements;
    var rows := InOrder(ScopeRows(banks, scope), BankKey());
    var start := Pass([], AlreadyClaimed(flushed, ledgers, scope.entity), 0, 0, 0, 0);
    var added := AfterRows(start, run, rows, ledgers, cfg, flushed, sees).added;
    var before := AfterRows(start, run, rows[..k], ledgers, cfg, flushed, sees);
    SoleSuggestions.ScopeRowsAreDistinct(banks, scope);
    PassGivesOwnRows(start, run, rows, ledgers, cfg, flushed, sees, k);
    RightOwnRows(before, run, rows[k], ledgers, cfg);
    forall t | t in ledgers
      ensures t in before.claimed <==> t in HeldAt(rows[k], ScopeRows(banks, scope), ledgers, flushed, added, sees) {
      HeldWhenClaimed(run, scope, banks, ledgers, cfg, flushed, sees, k, t);
    }
    SameOfferSameRows(OwnRows(before, run, rows[k], ledgers, cfg), run, rows[k], ledgers, cfg, before.claimed,
                      HeldAt(rows[k], ScopeRows(banks, scope), ledgers, flushed, added, sees));
  }

  lemma RightOwnRows(p: Pass, run: Id, b: BankRow, ledgers: LedgerTable, cfg: Config)
    ensures RightRows(OwnRows(p, run, b, ledgers, cfg), run, b, ledgers, cfg, p.claimed)
  {
    hide RightRows, Produce, Top, Candidates;
    OwnRowsAreRight(run, b, ledgers, cfg, p.claimed);
  }

  /** The first pass of a run, whether or not it sees the rows it adds: a bank row in scope is given
      exactly the unbeaten ledger rows among those that fit, reach forty points and are not held at
      its turn; a bank row out of scope is given nothing. */
  lemma PassGivesTheUnbeaten(
    run: Id, scope: Scope, banks: BankTable, ledgers: LedgerTable, cfg: Config, flushed: seq<Suggestion>,
    sees: bool, b: BankRow)
    requires FreshRun(flushed, run) && b in banks.Values
    ensures var added := RunPass(run, scope, banks, ledgers, cfg, flushed, sees).added;
            && (forall x | x in added :: x.run == run)
            && if b.active && b.entity == scope.entity && b.account == scope.account
                  && scope.periodStart <= b.date <= scope.periodEnd
               then RightRows(RowsAbout(added, run, b.id), run, b, ledgers, cfg,
                              HeldAt(b, ScopeRows(banks, scope), ledgers, flushed, added, sees))
               else forall x | x in added :: x.bank != b.id
  {
    var start := Pass([], AlreadyClaimed(flushed, ledgers, scope.entity), 0, 0, 0, 0);
    var rows := InOrder(ScopeRows(banks, scope), BankKey());
    hide AfterRows, RightRows, HeldAt, InOrder, AlreadyClaimed, RowsAbout;
    SoleSuggestions.ScopeRowsAreDistinct(banks, scope);
    FreshPassSkipsNothing(start, run, rows, ledgers, cfg, flushed, sees);
    if InScope(b, scope) {
      var k := PlaceInOrder(banks, scope, b);
      TurnIsRight(run, scope, banks, ledgers, cfg, flushed, sees, k);
    } else {
      forall i | 0 <= i < |rows| ensures rows[i].id != b.id {
        assert rows[i] in Elements(rows);
      }
    }
  }
}
