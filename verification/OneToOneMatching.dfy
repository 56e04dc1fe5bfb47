/** Stage 5C: one pass over the bank rows of a run, writing for each either one suggestion,
    the set of candidates tied at the top, or one row saying that nothing was found. */
module OneToOneMatching {
  import opened RowOrder
  import opened ReconciliationModel

  datatype Tier = NotFound | AutoMatch | Review | Tied
  datatype SuggestionStatus = Pending | Accepted | Rejected | Superseded

  datatype Suggestion = Suggestion(
    run: Id, bank: Id, ledger: Option<Id>, score: int, exact: bool, tier: Tier, status: SuggestionStatus)

  // ---------------------------------------------------------------- reading suggestions

  predicate About(s: Suggestion, run: Id, bank: Id) {
    s.run == run && s.bank == bank
  }

  predicate Live(s: Suggestion) {
    s.status == Pending || s.status == Accepted
  }

  /** The run already has some row for this bank row. */
  predicate Processed(rows: seq<Suggestion>, run: Id, bank: Id) {
    exists s | s in rows :: About(s, run, bank)
  }

  /** The ledger rows that the suggestions about (run, bank row) refer to. */
  function Offered(rows: seq<Suggestion>, run: Id, bank: Id): set<Id> {
    set s | s in rows && About(s, run, bank) && s.ledger.Some? :: s.ledger.value
  }

  /** Ledger rows of the entity referenced by a live suggestion of any run. */
  function AlreadyClaimed(rows: seq<Suggestion>, ledgers: LedgerTable, entity: Id): set<Id> {
    set s | s in rows && Live(s) && s.ledger.Some? && s.ledger.value in ledgers
            && ledgers[s.ledger.value].entity == entity :: s.ledger.value
  }

  // ---------------------------------------------------------------- what a bank row gets

  function RankKey(b: BankRow): LedgerRow -> Key {
    (l: LedgerRow) => (-TotalScore(b, l), l.date, l.id)
  }

  function RatedRows(b: BankRow, candidates: LedgerTable): set<LedgerRow> {
    set k | k in candidates && Rated(b, candidates[k]) :: candidates[k]
  }

  /** The rated rows among those fetched. */
  function RatedAmong(b: BankRow, rows: seq<LedgerRow>): set<LedgerRow> {
    set l | l in rows && Rated(b, l)
  }

  function Best(b: BankRow, candidates: LedgerTable): set<LedgerRow> {
    var rated := RatedRows(b, candidates);
    set l | l in rated && forall m | m in rated :: TotalScore(b, m) <= TotalScore(b, l)
  }

  /** The rated candidates that no other candidate outscores, in rank order. */
  ghost function Top(b: BankRow, candidates: LedgerTable): seq<LedgerRow>
  {
    InOrder(Best(b, candidates), RankKey(b))
  }

  function NoneFound(run: Id, b: BankRow): Suggestion {
    Suggestion(run, b.id, None, 0, false, NotFound, Pending)
  }

  predicate IsExact(b: BankRow, l: LedgerRow) {
    match ScoreCandidate(b, l)
    case Some(s) => s.IsExact()
    case None => false
  }

  function TiedRow(run: Id, b: BankRow, l: LedgerRow): Suggestion {
    Suggestion(run, b.id, Some(l.id), TotalScore(b, l), IsExact(b, l), Tied, Pending)
  }

  /** A high-value row is not auto-tier without some reference evidence. */
  function TierOf(b: BankRow, l: LedgerRow, cfg: Config): Tier {
    if TotalScore(b, l) < AUTO_MATCH_THRESHOLD then Review
    else if cfg.highValueThreshold.Some? && b.amount > cfg.highValueThreshold.value
        && ReferencePoints(b.refs, l.refs) == 0
    then Review
    else AutoMatch
  }

  function SoleRow(run: Id, b: BankRow, l: LedgerRow, cfg: Config): Suggestion {
    Suggestion(run, b.id, Some(l.id), TotalScore(b, l), IsExact(b, l), TierOf(b, l, cfg), Pending)
  }

  function TiedRows(run: Id, b: BankRow, tied: seq<LedgerRow>): (rows: seq<Suggestion>)
    ensures |rows| == |tied|
    ensures forall i | 0 <= i < |rows| :: rows[i] == TiedRow(run, b, tied[i])
  {
    if tied == [] then [] else TiedRows(run, b, tied[..|tied| - 1]) + [TiedRow(run, b, tied[|tied| - 1])]
  }

  /** The rows a bank row produces and what the run's counters gain: suggestions written,
      auto-tier matches, ties at the top and rows left without a candidate. */
  datatype Outcome = Outcome(rows: seq<Suggestion>, suggestions: int, matched: int, ambiguous: int, unmatched: int)

  /** What a fresh bank row produces from its unbeaten candidates. */
  function Produce(run: Id, b: BankRow, top: seq<LedgerRow>, cfg: Config): Outcome {
    if |top| == 0 then Outcome([NoneFound(run, b)], 1, 0, 0, 1)
    else if |top| == 1 then
      Outcome([SoleRow(run, b, top[0], cfg)], 1, if TierOf(b, top[0], cfg) == AutoMatch then 1 else 0, 0, 0)
    else Outcome(TiedRows(run, b, top), |top|, 0, 1, 0)
  }

  lemma TopAreBest(b: BankRow, candidates: LedgerTable)
    ensures forall l | l in Top(b, candidates) ::
            l in Best(b, candidates) && l.id in candidates && candidates[l.id] == l && Rated(b, l)
  {
    forall l | l in Top(b, candidates) ensures l in Best(b, candidates) {
      assert l in Elements(Top(b, candidates));
    }
  }

  // ---------------------------------------------------------------- a pass

  /** The rows added so far, the growing claimed set and the counters of a pass. */
  datatype Pass = Pass(
    added: seq<Suggestion>, claimed: set<Id>, suggestions: int, matched: int, ambiguous: int, unmatched: int)

  /** What a query inside the pass sees: rows added but not flushed only if `sees`. */
  function Visible(flushed: seq<Suggestion>, added: seq<Suggestion>, sees: bool): seq<Suggestion> {
    if sees then flushed + added else flushed
  }

  /** What one bank row of the pass writes: nothing if the run already has a row for it. */
  ghost function RowOutcome(
    run: Id, b: BankRow, ledgers: LedgerTable, cfg: Config, claimed: set<Id>, visible: seq<Suggestion>): Outcome
  {
    if Processed(visible, run, b.id) then Outcome([], 0, 0, 0, 0)
    else Produce(run, b, Top(b, Candidates(b, ledgers, cfg, claimed)), cfg)
  }

  ghost function AfterRow(
    p: Pass, run: Id, b: BankRow, ledgers: LedgerTable, cfg: Config, flushed: seq<Suggestion>, sees: bool): Pass
  {
    var outcome := RowOutcome(run, b, ledgers, cfg, p.claimed, Visible(flushed, p.added, sees));
    var added := p.added + outcome.rows;
    var newly := Offered(Visible(flushed, added, sees), run, b.id);
    Pass(added, Claim(p.claimed, newly), p.suggestions + outcome.suggestions,
         p.matched + outcome.matched, p.ambiguous + outcome.ambiguous, p.unmatched + outcome.unmatched)
  }

  /** Only an unambiguous match claims its ledger row. */
  function Claim(claimed: set<Id>, newly: set<Id>): set<Id> {
    if |newly| == 1 then claimed + newly else claimed
  }

  ghost function AfterRows(
    start: Pass, run: Id, banks: seq<BankRow>, ledgers: LedgerTable, cfg: Config, flushed: seq<Suggestion>,
    sees: bool): Pass
  {
    if banks == [] then start
    else AfterRow(AfterRows(start, run, banks[..|banks| - 1], ledgers, cfg, flushed, sees),
                  run, banks[|banks| - 1], ledgers, cfg, flushed, sees)
  }

  predicate InScope(b: BankRow, scope: Scope) {
    b.entity == scope.entity && b.account == scope.account
    && scope.periodStart <= b.date <= scope.periodEnd && b.active
  }

  function BankKey(): BankRow -> Key {
    (b: BankRow) => (b.date, b.id, 0)
  }

  function ScopeRows(banks: BankTable, scope: Scope): set<BankRow> {
    set b | b in banks.Values && InScope(b, scope)
  }

  /** The whole pass of a run over its scope. */
  ghost function RunPass(
    run: Id, scope: Scope, banks: BankTable, ledgers: LedgerTable, cfg: Config, flushed: seq<Suggestion>,
    sees: bool): Pass
  {
    AfterRows(Pass([], AlreadyClaimed(flushed, ledgers, scope.entity), 0, 0, 0, 0),
              run, InOrder(ScopeRows(banks, scope), BankKey()), ledgers, cfg, flushed, sees)
  }

  // ---------------------------------------------------------------- the engine

  lemma BestHaveTheFirstTotal(b: BankRow, candidates: LedgerTable, ranked: seq<LedgerRow>)
    requires ranked != [] && Ascending(ranked, RankKey(b)) && Elements(ranked) == RatedRows(b, candidates)
    ensures forall l :: l in Best(b, candidates) <==> l in ranked && TotalScore(b, l) == TotalScore(b, ranked[0])
  {
    assert ranked[0] in Elements(ranked);
    forall l ensures l in Best(b, candidates) <==> l in ranked && TotalScore(b, l) == TotalScore(b, ranked[0]) {
      assert l in Elements(ranked) <==> l in RatedRows(b, candidates);
      if l in ranked {
        if TotalScore(b, l) == TotalScore(b, ranked[0]) {
          forall m | m in RatedRows(b, candidates) ensures TotalScore(b, m) <= TotalScore(b, l) {
            assert m in Elements(ranked);
          }
        }
      }
    }
  }

  /** Sorting by rank and keeping the rows that share the first total finds exactly the
      unbeaten candidates, in rank order. */
  lemma RankedListStartsWithTop(b: BankRow, candidates: LedgerTable, ranked: seq<LedgerRow>)
    requires ranked == InOrder(RatedRows(b, candidates), RankKey(b))
    ensures Top(b, candidates) == TopOf(b, ranked)
  {
    var tied := TopOf(b, ranked);
    InOrderAscends(RatedRows(b, candidates), RankKey(b));
    if ranked == [] {
      assert RatedRows(b, candidates) == {};
      assert Best(b, candidates) == {};
    } else {
      FilterKeepsOrder(b, ranked, TotalScore(b, ranked[0]));
      BestHaveTheFirstTotal(b, candidates, ranked);
      assert Elements(tied) == Best(b, candidates);
    }
    InOrderAscends(Best(b, candidates), RankKey(b));
    OneAscendingListing(tied, Top(b, candidates), RankKey(b));
  }

  /** The rows of `ranked` whose total equals that of the first. */
  function TopOf(b: BankRow, ranked: seq<LedgerRow>): seq<LedgerRow> {
    if ranked == [] then [] else WithTotal(b, ranked, TotalScore(b, ranked[0]))
  }

  function WithTotal(b: BankRow, rows: seq<LedgerRow>, total: int): seq<LedgerRow> {
    if rows == [] then []
    else
      var front := WithTotal(b, rows[..|rows| - 1], total);
      if TotalScore(b, rows[|rows| - 1]) == total then front + [rows[|rows| - 1]] else front
  }

  lemma {:induction false} FilterKeepsOrder(b: BankRow, rows: seq<LedgerRow>, total: int)
    requires Ascending(rows, RankKey(b))
    ensures Ascending(WithTotal(b, rows, total), RankKey(b))
    ensures forall l :: l in WithTotal(b, rows, total) <==> l in rows && TotalScore(b, l) == total
  {
    if rows != [] {
      var front, last := rows[..|rows| - 1], rows[|rows| - 1];
      FilterKeepsOrder(b, front, total);
      assert rows == front + [last];
      forall l | l in front ensures Before(RankKey(b)(l), RankKey(b)(last)) {
        var i :| 0 <= i < |front| && front[i] == l;
        assert rows[i] == l && rows[|rows| - 1] == last;
      }
    }
  }

  class MatchingEngine {
    const banks: BankTable
    const ledgers: LedgerTable
    /** Whether a query sees the rows this session has added but not yet flushed. */
    const sees: bool
    var flushed: seq<Suggestion>
    var added: seq<Suggestion>

    constructor (banks: BankTable, ledgers: LedgerTable, suggestions: seq<Suggestion>, sees: bool)
      ensures this.banks == banks && this.ledgers == ledgers && this.sees == sees
      ensures flushed == suggestions && added == []
    {
      this.banks, this.ledgers, this.sees := banks, ledgers, sees;
      this.flushed, this.added := suggestions, [];
    }

    /** One bank row.  The candidate query has no ORDER BY, so the rows arrive in any order;
        what is written does not depend on it. */
    method RunMatchingForBankTransaction(run: Id, b: BankRow, cfg: Config, claimed: set<Id>)
      returns (suggestions: int, matched: int, ambiguous: int, unmatched: int)
      modifies this`added
      ensures var o := RowOutcome(run, b, ledgers, cfg, claimed, Visible(old(flushed), old(added), sees));
              && added == old(added) + o.rows && suggestions == o.suggestions
              && matched == o.matched && ambiguous == o.ambiguous && unmatched == o.unmatched
    {
      if Processed(Visible(flushed, added, sees), run, b.id) {
        return 0, 0, 0, 0;
      }
      var ranked := RankCandidates(b, cfg, claimed);
      if ranked == [] {
        added := added + [NoneFound(run, b)];
        return 1, 0, 0, 1;
      }
      var tied := TakeTied(b, ranked);
      if |tied| > 1 {
        AddTied(run, b, tied);
        return |tied|, 0, 1, 0;
      }
      var tier := if TotalScore(b, ranked[0]) >= AUTO_MATCH_THRESHOLD then AutoMatch else Review;
      if cfg.highValueThreshold.Some? && b.amount > cfg.highValueThreshold.value
         && ReferencePoints(b.refs, ranked[0].refs) == 0 && tier == AutoMatch {
        tier := Review;
      }
      added := added + [SoleRow(run, b, ranked[0], cfg).(tier := tier)];
      suggestions, matched, ambiguous, unmatched := 1, if tier == AutoMatch then 1 else 0, 0, 0;
    }

    /** Score, discard and rank.  The query has no ORDER BY: its rows arrive in any order. */
    method RankCandidates(b: BankRow, cfg: Config, claimed: set<Id>) returns (ranked: seq<LedgerRow>)
      ensures Ascending(ranked, RankKey(b)) && TopOf(b, ranked) == Top(b, Candidates(b, ledgers, cfg, claimed))
    {
      var candidateSet := Candidates(b, ledgers, cfg, claimed);
      var candidates := SelectUnordered(candidateSet.Values);
      var scored := ScoreCandidates(b, candidates);
      assert Elements(scored) == RatedRows(b, candidateSet) by {
        assert forall l :: l in candidates <==> l in Elements(candidates);
      }
      SortForgetsArrivalOrder(scored, RankKey(b));
      ranked := SortBy(scored, RankKey(b));
      InOrderAscends(RatedRows(b, candidateSet), RankKey(b));
      RankedListStartsWithTop(b, candidateSet, ranked);
    }

    method AddTied(run: Id, b: BankRow, tied: seq<LedgerRow>)
      modifies this`added
      ensures added == old(added) + TiedRows(run, b, tied)
    {
      ghost var rows: seq<Suggestion> := [];
      for i := 0 to |tied|
        invariant rows == TiedRows(run, b, tied[..i])
        invariant added == old(added) + rows
      {
        assert tied[..i + 1][..i] == tied[..i];
        added := added + [TiedRow(run, b, tied[i])];
        rows := rows + [TiedRow(run, b, tied[i])];
      }
      assert tied[..|tied|] == tied;
    }

    static method ScoreCandidates(b: BankRow, candidates: seq<LedgerRow>) returns (scored: seq<LedgerRow>)
      requires |candidates| == |Elements(candidates)|
      ensures Elements(scored) == RatedAmong(b, candidates)
      ensures |scored| == |Elements(scored)|
    {
      scored := [];
      ListingHasNoRepeats(candidates);
      for i := 0 to |candidates|
        invariant Elements(scored) == RatedAmong(b, candidates[..i])
        invariant |scored| == |Elements(scored)|
      {
        var score := ScoreCandidate(b, candidates[i]);
        assert candidates[..i + 1] == candidates[..i] + [candidates[i]];
        if score.Some? && score.value.Total() >= REVIEW_THRESHOLD {
          assert candidates[i] !in candidates[..i] && candidates[i] !in RatedAmong(b, candidates[..i]);
          assert Elements(scored + [candidates[i]]) == Elements(scored) + {candidates[i]};
          scored := scored + [candidates[i]];
        }
      }
      assert candidates[..|candidates|] == candidates;
    }

    static method TakeTied(b: BankRow, ranked: seq<LedgerRow>) returns (tied: seq<LedgerRow>)
      requires ranked != [] && Ascending(ranked, RankKey(b))
      ensures tied == TopOf(b, ranked)
      ensures |tied| >= 1 && tied[0] == ranked[0]
    {
      var topScore := TotalScore(b, ranked[0]);
      tied := [];
      for i := 0 to |ranked|
        invariant tied == WithTotal(b, ranked[..i], topScore)
        invariant i > 0 ==> |tied| >= 1 && tied[0] == ranked[0]
      {
        assert ranked[..i + 1][..i] == ranked[..i];
        if TotalScore(b, ranked[i]) == topScore {
          tied := tied + [ranked[i]];
        }
      }
      assert ranked[..|ranked|] == ranked;
    }

    /** A whole run: what is written is a function of the tables, and of nothing else. */
    method RunMatchingForRun(run: Id, scope: Scope, cfg: Config)
      returns (suggestions: int, matched: int, ambiguous: int, unmatched: int)
      requires added == []
      modifies this
      ensures added == []
      ensures var p := RunPass(run, scope, banks, ledgers, cfg, old(flushed), sees);
              && flushed == old(flushed) + p.added && suggestions == p.suggestions
              && matched == p.matched && ambiguous == p.ambiguous && unmatched == p.unmatched
    {
      var rows := SelectOrdered(ScopeRows(banks, scope), BankKey());
      suggestions, matched, ambiguous, unmatched :=
          MatchRows(run, rows, cfg, AlreadyClaimed(flushed, ledgers, scope.entity));
      flushed, added := flushed + added, [];
    }

    method MatchRows(run: Id, rows: seq<BankRow>, cfg: Config, claimedBefore: set<Id>)
      returns (suggestions: int, matched: int, ambiguous: int, unmatched: int)
      requires added == []
      modifies this`added
      ensures var p := AfterRows(Pass([], claimedBefore, 0, 0, 0, 0), run, rows, ledgers, cfg, flushed, sees);
              && added == p.added && suggestions == p.suggestions
              && matched == p.matched && ambiguous == p.ambiguous && unmatched == p.unmatched
    {
      hide RowOutcome, Offered, Visible;
      var claimed := claimedBefore;
      ghost var start := Pass([], claimed, 0, 0, 0, 0);
      ghost var p := start;
      suggestions, matched, ambiguous, unmatched := 0, 0, 0, 0;
      for i := 0 to |rows|
        invariant added == p.added && claimed == p.claimed && suggestions == p.suggestions
        invariant matched == p.matched && ambiguous == p.ambiguous && unmatched == p.unmatched
        invariant p == AfterRows(start, run, rows[..i], ledgers, cfg, flushed, sees)
      {
        var n, m, a, u := RunMatchingForBankTransaction(run, rows[i], cfg, claimed);
        suggestions, matched, ambiguous, unmatched := suggestions + n, matched + m, ambiguous + a, unmatched + u;
        claimed := Claim(claimed, Offered(Visible(flushed, added, sees), run, rows[i].id));
        p := AfterRow(p, run, rows[i], ledgers, cfg, flushed, sees);
        assert rows[..i + 1][..i] == rows[..i];
      }
      assert rows[..|rows|] == rows;
    }
  }
}
