/** What a Stage 5C pass guarantees: the shape of its rows, its counters, that repeating it
    adds nothing, and when a ledger row can end up in two sole suggestions. */
module OneToOneProperties {
  import opened RowOrder
  import opened ReconciliationModel
  import opened OneToOneMatching

  // ---------------------------------------------------------------- shape of the rows

  /** The rows about one (run, bank row), in the order they were written. */
  function RowsAbout(rows: seq<Suggestion>, run: Id, bank: Id): (r: seq<Suggestion>)
    ensures forall s :: s in r <==> s in rows && About(s, run, bank)
  {
    if rows == [] then []
    else
      assert rows == rows[..|rows| - 1] + [rows[|rows| - 1]];
      var front := RowsAbout(rows[..|rows| - 1], run, bank);
      if About(rows[|rows| - 1], run, bank) then front + [rows[|rows| - 1]] else front
  }

  /** One "nothing found" row, or one candidate, or two or more different candidates that
      share one score. */
  predicate WellShaped(rows: seq<Suggestion>) {
    || (|rows| == 1 && rows[0].ledger.None? && rows[0].tier == NotFound)
    || (|rows| == 1 && rows[0].ledger.Some? && rows[0].tier in {AutoMatch, Review} && rows[0].score >= REVIEW_THRESHOLD)
    || (|rows| >= 2
        && (forall i | 0 <= i < |rows| ::
            rows[i].ledger.Some? && rows[i].tier == Tied && rows[i].score == rows[0].score)
        && rows[0].score >= REVIEW_THRESHOLD
        && forall i, j | 0 <= i < j < |rows| :: rows[i].ledger != rows[j].ledger)
  }

  /** Rated candidates of one bank row with one score and different ids. */
  ghost predicate Tying(b: BankRow, top: seq<LedgerRow>) {
    forall i, j | 0 <= i < j < |top| :: TotalScore(b, top[i]) == TotalScore(b, top[j]) && top[i].id != top[j].id
  }

  lemma TopRowsTie(b: BankRow, candidates: LedgerTable)
    ensures Tying(b, Top(b, candidates))
    ensures forall l | l in Top(b, candidates) :: Rated(b, l) && l.id in candidates
  {
    var top := Top(b, candidates);
    TopAreBest(b, candidates);
    InOrderAscends(Best(b, candidates), RankKey(b));
    forall i, j | 0 <= i < j < |top| ensures TotalScore(b, top[i]) == TotalScore(b, top[j]) && top[i].id != top[j].id {
      assert top[i] in top && top[j] in top;
      assert Before(RankKey(b)(top[i]), RankKey(b)(top[j]));
    }
  }

  lemma ProducedRowsAreWellShaped(run: Id, b: BankRow, top: seq<LedgerRow>, cfg: Config)
    requires Tying(b, top) && forall l | l in top :: Rated(b, l)
    ensures WellShaped(Produce(run, b, top, cfg).rows)
  {
    if |top| >= 1 {
      assert top[0] in top;
    }
  }

  /** Produced rows are pending, about the bank row, and refer to the unbeaten candidates. */
  lemma ProducedRowsAreAbout(run: Id, b: BankRow, top: seq<LedgerRow>, cfg: Config, s: Suggestion)
    requires s in Produce(run, b, top, cfg).rows
    ensures About(s, run, b.id) && s.status == Pending
    ensures s.ledger.Some? ==> exists l | l in top :: l.id == s.ledger.value
  {
    var rows := Produce(run, b, top, cfg).rows;
    var i :| 0 <= i < |rows| && rows[i] == s;
    if |top| > 0 {
      assert top[i] in top;
    }
  }

  // ---------------------------------------------------------------- the fresh pass

  /** Nothing written and nothing counted. */
  predicate Start(p: Pass) {
    p.added == [] && p.suggestions == 0 && p.matched == 0 && p.ambiguous == 0 && p.unmatched == 0
  }

  predicate FreshRun(flushed: seq<Suggestion>, run: Id) {
    forall s | s in flushed :: s.run != run
  }

  ghost predicate AddedFor(added: seq<Suggestion>, run: Id, banks: seq<BankRow>) {
    forall s | s in added :: s.run == run && exists i | 0 <= i < |banks| :: s.bank == banks[i].id
  }

  /** For a run executed for the first time every bank row is processed exactly once. */
  lemma {:induction false} FreshPassSkipsNothing(
    start: Pass, run: Id, banks: seq<BankRow>, ledgers: LedgerTable, cfg: Config, flushed: seq<Suggestion>, sees: bool)
    requires DifferentBanks(banks) && FreshRun(flushed, run) && start.added == []
    ensures AddedFor(AfterRows(start, run, banks, ledgers, cfg, flushed, sees).added, run, banks)
  {
    if banks != [] {
      var front, b := banks[..|banks| - 1], banks[|banks| - 1];
      FreshPassSkipsNothing(start, run, front, ledgers, cfg, flushed, sees);
      var p := AfterRows(start, run, front, ledgers, cfg, flushed, sees);
      var rows := Produce(run, b, Top(b, Candidates(b, ledgers, cfg, p.claimed)), cfg).rows;
      forall s | s in p.added + rows ensures s.run == run && exists i | 0 <= i < |banks| :: s.bank == banks[i].id {
        if s in p.added {
          var i :| 0 <= i < |front| && s.bank == front[i].id;
          assert s.bank == banks[i].id;
        } else {
          ProducedRowsAreAbout(run, b, Top(b, Candidates(b, ledgers, cfg, p.claimed)), cfg, s);
          assert s.bank == banks[|banks| - 1].id;
        }
      }
    }
  }

  lemma FreshRowStep(
    p: Pass, run: Id, front: seq<BankRow>, b: BankRow, ledgers: LedgerTable, cfg: Config, flushed: seq<Suggestion>,
    sees: bool)
    requires AddedFor(p.added, run, front) && FreshRun(flushed, run)
    requires forall i | 0 <= i < |front| :: front[i].id != b.id
    ensures var q := AfterRow(p, run, b, ledgers, cfg, flushed, sees);
            var o := Produce(run, b, Top(b, Candidates(b, ledgers, cfg, p.claimed)), cfg);
            && q.added == p.added + o.rows
            && q.suggestions == p.suggestions + o.suggestions
            && q.matched == p.matched + o.matched && q.ambiguous == p.ambiguous + o.ambiguous
                && q.unmatched == p.unmatched + o.unmatched
  {
  }

  lemma {:induction false} RowsAboutConcat(a: seq<Suggestion>, b: seq<Suggestion>, run: Id, bank: Id)
    ensures RowsAbout(a + b, run, bank) == RowsAbout(a, run, bank) + RowsAbout(b, run, bank)
  {
    if b == [] {
      assert a + b == a;
    } else {
      RowsAboutConcat(a, b[..|b| - 1], run, bank);
      assert (a + b)[..|a + b| - 1] == a + b[..|b| - 1];
    }
  }

  lemma {:induction false} RowsAboutAll(rows: seq<Suggestion>, run: Id, bank: Id)
    ensures (forall s | s in rows :: About(s, run, bank)) ==> RowsAbout(rows, run, bank) == rows
    ensures (forall s | s in rows :: !About(s, run, bank)) ==> RowsAbout(rows, run, bank) == []
  {
    if rows != [] {
      RowsAboutAll(rows[..|rows| - 1], run, bank);
    }
  }

  /** Every bank row of the pass ends with exactly the rows produced from the candidates
      that were unclaimed when its turn came; in particular with a well-shaped set. */
  lemma {:induction false} PassShape(
    start: Pass, run: Id, banks: seq<BankRow>, ledgers: LedgerTable, cfg: Config, flushed: seq<Suggestion>,
    sees: bool, k: nat)
    requires DifferentBanks(banks) && FreshRun(flushed, run) && start.added == [] && k < |banks|
    ensures var p := AfterRows(start, run, banks, ledgers, cfg, flushed, sees);
            var before := AfterRows(start, run, banks[..k], ledgers, cfg, flushed, sees);
            && RowsAbout(flushed + p.added, run, banks[k].id)
               == Produce(run, banks[k], Top(banks[k], Candidates(banks[k], ledgers, cfg, before.claimed)), cfg).rows
            && WellShaped(RowsAbout(flushed + p.added, run, banks[k].id))
  {
    hide AfterRow, Produce, RowsAbout, WellShaped, Top;
    var front, b := banks[..|banks| - 1], banks[|banks| - 1];
    var p := AfterRows(start, run, front, ledgers, cfg, flushed, sees);
    FreshPassSkipsNothing(start, run, front, ledgers, cfg, flushed, sees);
    ShapeAfterOneMore(p, run, front, b, ledgers, cfg, flushed, sees, banks[k].id);
    if k < |front| {
      PassShape(start, run, front, ledgers, cfg, flushed, sees, k);
      assert front[..k] == banks[..k];
      assert banks[k].id != b.id;
    } else {
      assert banks[..k] == front;
    }
  }

  /** The turn of `b` leaves the rows about other bank rows alone and gives `b` its own. */
  lemma ShapeAfterOneMore(
    p: Pass, run: Id, front: seq<BankRow>, b: BankRow, ledgers: LedgerTable, cfg: Config, flushed: seq<Suggestion>,
    sees: bool, bank: Id)
    requires AddedFor(p.added, run, front) && FreshRun(flushed, run)
    requires forall i | 0 <= i < |front| :: front[i].id != b.id
    ensures var after := flushed + AfterRow(p, run, b, ledgers, cfg, flushed, sees).added;
            var own := Produce(run, b, Top(b, Candidates(b, ledgers, cfg, p.claimed)), cfg).rows;
            && WellShaped(own)
            && RowsAbout(after, run, bank) == if bank == b.id then own else RowsAbout(flushed + p.added, run, bank)
  {
    var top := Top(b, Candidates(b, ledgers, cfg, p.claimed));
    var own := Produce(run, b, top, cfg).rows;
    TopRowsTie(b, Candidates(b, ledgers, cfg, p.claimed));
    ProducedRowsAreWellShaped(run, b, top, cfg);
    FreshRowStep(p, run, front, b, ledgers, cfg, flushed, sees);
    RowsAboutAll(flushed + p.added, run, b.id);
    AppendOwnRows(flushed + p.added, own, run, b, top, cfg, bank);
    ConcatAssociates(flushed, p.added, own);
  }

  lemma ConcatAssociates<T>(a: seq<T>, b: seq<T>, c: seq<T>)
    ensures a + (b + c) == (a + b) + c
  {
  }

  lemma AppendOwnRows(
    rows: seq<Suggestion>, own: seq<Suggestion>, run: Id, b: BankRow, top: seq<LedgerRow>, cfg: Config, bank: Id)
    requires own == Produce(run, b, top, cfg).rows && RowsAbout(rows, run, b.id) == []
    ensures RowsAbout(rows + own, run, bank) == if bank == b.id then own else RowsAbout(rows, run, bank)
  {
    forall s | s in own ensures About(s, run, b.id) {
      ProducedRowsAreAbout(run, b, top, cfg, s);
    }
    RowsAboutConcat(rows, own, run, bank);
    RowsAboutAll(own, run, bank);
  }

  /** A pass over bank rows the run has already processed adds nothing and counts nothing,
      whatever has happened to the ledger, the configuration or the claims. */
  lemma {:induction false} SecondPassAddsNothing(
    start: Pass, run: Id, banks: seq<BankRow>, ledgers: LedgerTable, cfg: Config, flushed: seq<Suggestion>, sees: bool)
    requires Start(start)
    requires forall b | b in banks :: Processed(flushed, run, b.id)
    ensures var p := AfterRows(start, run, banks, ledgers, cfg, flushed, sees); Start(p)
  {
    if banks != [] {
      var front := banks[..|banks| - 1];
      SecondPassAddsNothing(start, run, front, ledgers, cfg, flushed, sees);
      assert banks[|banks| - 1] in banks;
    }
  }

  // ---------------------------------------------------------------- what the labels mean

  predicate SomeReference(b: BankRow, l: LedgerRow) {
    b.refs * l.refs != {} || Overlaps(b.refs, l.refs)
  }

  /** A suggestion is called exact when amount, date and a reference all agree; it is auto-tier
      when the evidence reaches the threshold, and for a high-value row only with some
      reference evidence. */
  lemma LabelsMean(b: BankRow, l: LedgerRow, cfg: Config)
    requires ScoreCandidate(b, l).Some?
    ensures IsExact(b, l) <==> b.amount == l.amount && b.date == l.date && b.refs * l.refs != {}
    ensures TierOf(b, l, cfg) == AutoMatch <==>
            && TotalScore(b, l) >= AUTO_MATCH_THRESHOLD
            && (cfg.highValueThreshold.Some? && b.amount > cfg.highValueThreshold.value ==> SomeReference(b, l))
  {
    if b.refs * l.refs == {} && Overlaps(b.refs, l.refs) {
      assert b.refs != {} && l.refs != {};
    }
  }

  /** A tie claims nothing within the pass: the ledger rows of an undecided bank row stay on
      offer to the bank rows after it. */
  lemma TiesClaimNothing(
    p: Pass, run: Id, b: BankRow, ledgers: LedgerTable, cfg: Config, flushed: seq<Suggestion>, sees: bool)
    requires !Processed(flushed + p.added, run, b.id)
    requires |Top(b, Candidates(b, ledgers, cfg, p.claimed))| >= 2
    ensures AfterRow(p, run, b, ledgers, cfg, flushed, sees).claimed == p.claimed
  {
    hide Top, Candidates, TiedRows, Offered;
    var top := Top(b, Candidates(b, ledgers, cfg, p.claimed));
    TopRowsTie(b, Candidates(b, ledgers, cfg, p.claimed));
    ConcatAssociates(flushed, p.added, TiedRows(run, b, top));
    if sees {
      TieOffersSeveral(flushed + p.added, run, b, top);
    } else {
      NothingOffered(flushed, run, b.id);
    }
  }

  lemma NothingOffered(rows: seq<Suggestion>, run: Id, bank: Id)
    requires !Processed(rows, run, bank)
    ensures Offered(rows, run, bank) == {}
  {
  }

  lemma TieOffersSeveral(rows: seq<Suggestion>, run: Id, b: BankRow, top: seq<LedgerRow>)
    requires |top| >= 2 && Tying(b, top)
    ensures |Offered(rows + TiedRows(run, b, top), run, b.id)| >= 2
  {
    var own := TiedRows(run, b, top);
    var all := rows + own;
    assert all[|rows|] == TiedRow(run, b, top[0]) && all[|rows| + 1] == TiedRow(run, b, top[1]);
    assert all[|rows|] in all && all[|rows| + 1] in all;
    TwoElements(Offered(all, run, b.id), top[0].id, top[1].id);
  }

  lemma TwoElements(s: set<Id>, x: Id, y: Id)
    requires x in s && y in s && x != y
    ensures |s| >= 2
  {
    assert y in s - {x};
    assert |s| == |s - {x}| + 1;
    assert |s - {x}| >= 1;
  }

  // ---------------------------------------------------------------- query order

  /** The candidate query has no ORDER BY.  Any two orders in which it returns the same rated
      rows rank the same, so they start with the same tied rows. */
  lemma RankingForgetsQueryOrder(b: BankRow, ledgers: LedgerTable, one: seq<LedgerRow>, other: seq<LedgerRow>)
    requires forall l | l in one :: l in ledgers.Values
    requires Elements(one) == Elements(other) && |one| == |other| == |Elements(one)|
    ensures SortBy(one, RankKey(b)) == SortBy(other, RankKey(b))
    ensures TopOf(b, SortBy(one, RankKey(b))) == TopOf(b, SortBy(other, RankKey(b)))
  {
    hide SortBy, TopOf, InOrder;
    assert Separates(Elements(one), RankKey(b));
    SortForgetsArrivalOrder(one, RankKey(b));
    SortForgetsArrivalOrder(other, RankKey(b));
  }

  // ---------------------------------------------------------------- counters

  function CountTier(rows: seq<Suggestion>, tier: Tier): nat {
    if rows == [] then 0
    else CountTier(rows[..|rows| - 1], tier) + if rows[|rows| - 1].tier == tier then 1 else 0
  }

  lemma {:induction false} CountTierConcat(a: seq<Suggestion>, b: seq<Suggestion>, tier: Tier)
    ensures CountTier(a + b, tier) == CountTier(a, tier) + CountTier(b, tier)
  {
    if b == [] {
      assert a + b == a;
    } else {
      CountTierConcat(a, b[..|b| - 1], tier);
      assert (a + b)[..|a + b| - 1] == a + b[..|b| - 1];
    }
  }

  lemma {:induction false} CountTierOfTied(rows: seq<Suggestion>, tier: Tier)
    requires forall s | s in rows :: s.tier == Tied
    ensures CountTier(rows, tier) == if tier == Tied then |rows| else 0
  {
    if rows != [] {
      CountTierOfTied(rows[..|rows| - 1], tier);
    }
  }

  /** The counters agree with the rows: `suggestions` is the number of rows added, `unmatched` and
      `matched` the rows of their tier, and unmatched + ambiguous + sole is the number of
      bank rows. */
  lemma {:induction false} CountersAgreeWithRows(
    start: Pass, run: Id, banks: seq<BankRow>, ledgers: LedgerTable, cfg: Config, flushed: seq<Suggestion>, sees: bool)
    requires DifferentBanks(banks) && FreshRun(flushed, run) && Start(start)
    ensures var p := AfterRows(start, run, banks, ledgers, cfg, flushed, sees);
            && p.suggestions == |p.added|
            && p.unmatched == CountTier(p.added, NotFound)
            && p.matched == CountTier(p.added, AutoMatch)
            && p.unmatched + p.ambiguous + CountTier(p.added, AutoMatch) + CountTier(p.added, Review) == |banks|
  {
    hide CountTier, Produce, Top, Candidates, AfterRow, AddedFor, FreshRun;
    if banks == [] {
      CountTierOfTied([], NotFound);
      CountTierOfTied([], AutoMatch);
      CountTierOfTied([], Review);
    } else {
      var front, b := banks[..|banks| - 1], banks[|banks| - 1];
      CountersAgreeWithRows(start, run, front, ledgers, cfg, flushed, sees);
      FreshPassSkipsNothing(start, run, front, ledgers, cfg, flushed, sees);
      var p := AfterRows(start, run, front, ledgers, cfg, flushed, sees);
      FreshRowStep(p, run, front, b, ledgers, cfg, flushed, sees);
      CountsOfOneRow(run, b, Top(b, Candidates(b, ledgers, cfg, p.claimed)), cfg);
      var o := Produce(run, b, Top(b, Candidates(b, ledgers, cfg, p.claimed)), cfg);
      CountTierConcat(p.added, o.rows, NotFound);
      CountTierConcat(p.added, o.rows, AutoMatch);
      CountTierConcat(p.added, o.rows, Review);
    }
  }

  lemma CountsOfOneRow(run: Id, b: BankRow, top: seq<LedgerRow>, cfg: Config)
    ensures var o := Produce(run, b, top, cfg);
            && o.suggestions == |o.rows|
            && o.unmatched == CountTier(o.rows, NotFound)
            && o.matched == CountTier(o.rows, AutoMatch)
            && o.unmatched + o.ambiguous + CountTier(o.rows, AutoMatch) + CountTier(o.rows, Review) == 1
  {
    var o := Produce(run, b, top, cfg);
    if |top| > 1 {
      CountTierOfTied(o.rows, NotFound);
      CountTierOfTied(o.rows, AutoMatch);
      CountTierOfTied(o.rows, Review);
    } else {
      assert o.rows[..0] == [];
    }
  }
}
