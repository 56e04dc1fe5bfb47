/** What every stored group rests on, and that each is stored once per run. */
module GroupEvidence {
  import opened RowOrder
  import opened GroupSearch
  import opened ReconciliationModel
  import opened AdvancedMatching
  import GroupKey
  import OneToOne = OneToOneMatching
  import GroupExclusivity

  // ---------------------------------------------------------------- one group per key

  ghost predicate KeysUnique(groups: seq<Group>) {
    forall i, j | 0 <= i < j < |groups| :: !SameKey(groups[i], groups[j])
  }

  lemma PersistingKeepsKeysUnique(groups: seq<Group>, g: Group)
    requires KeysUnique(groups)
    ensures KeysUnique(Persisted(groups, g))
  {
    if !Known(groups, g) {
      assert forall i | 0 <= i < |groups| :: groups[i] in groups;
    }
  }

  lemma {:induction false} PersistingAllKeepsKeysUnique(groups: seq<Group>, more: seq<Group>)
    requires KeysUnique(groups)
    ensures KeysUnique(PersistedAll(groups, more))
  {
    if more != [] {
      PersistingAllKeepsKeysUnique(groups, more[..|more| - 1]);
      PersistingKeepsKeysUnique(PersistedAll(groups, more[..|more| - 1]), more[|more| - 1]);
    }
  }

  // ---------------------------------------------------------------- the key in text

  function RelationText(r: Relation): string {
    match r
    case OneToMany => "ONE_TO_MANY"
    case ManyToOne => "MANY_TO_ONE"
    case Batch => "BATCH"
    case InternalTransfer => "INTERNAL_TRANSFER"
    case FxMatch => "FX_MATCH"
  }

  function Texts(ids: seq<Id>, text: Id -> string): (texts: seq<string>)
    ensures |texts| == |ids| && forall i | 0 <= i < |ids| :: texts[i] == text(ids[i])
  {
    seq(|ids|, i requires 0 <= i < |ids| => text(ids[i]))
  }

  function KeyText(g: Group, text: Id -> string): string {
    GroupKey.ComputeGroupKey(RelationText(g.relation), Texts(g.banks, text), Texts(g.ledgers, text))
  }

  ghost predicate Rendering(text: Id -> string) {
    (forall a, b | text(a) == text(b) :: a == b) && forall a :: GroupKey.CleanText(text(a))
  }

  function Occurrences<T(==)>(s: seq<T>, x: T): nat {
    if s == [] then 0 else Occurrences(s[..|s| - 1], x) + if s[|s| - 1] == x then 1 else 0
  }

  lemma {:induction false} OccurrencesAreMultiplicity<T>(s: seq<T>, x: T)
    ensures Occurrences(s, x) == multiset(s)[x]
  {
    if s != [] {
      OccurrencesAreMultiplicity(s[..|s| - 1], x);
      assert s == s[..|s| - 1] + [s[|s| - 1]];
    }
  }

  lemma {:induction false} TextsKeepOccurrences(ids: seq<Id>, text: Id -> string, id: Id)
    requires Rendering(text)
    ensures Occurrences(Texts(ids, text), text(id)) == Occurrences(ids, id)
  {
    if ids != [] {
      TextsKeepOccurrences(ids[..|ids| - 1], text, id);
      assert Texts(ids, text)[..|ids| - 1] == Texts(ids[..|ids| - 1], text);
      assert Texts(ids, text)[|ids| - 1] == text(ids[|ids| - 1]);
      assert text(ids[|ids| - 1]) == text(id) <==> ids[|ids| - 1] == id;
    }
  }

  lemma MultiplicityOfText(ids: seq<Id>, text: Id -> string, id: Id)
    requires Rendering(text)
    ensures multiset(Texts(ids, text))[text(id)] == multiset(ids)[id]
  {
    TextsKeepOccurrences(ids, text, id);
    OccurrencesAreMultiplicity(ids, id);
    OccurrencesAreMultiplicity(Texts(ids, text), text(id));
  }

  ghost function WrittenAs(ids: seq<Id>, text: Id -> string, t: string): (id: Id)
    requires t in Texts(ids, text)
    ensures id in ids && text(id) == t
  {
    var i :| 0 <= i < |ids| && Texts(ids, text)[i] == t;
    ids[i]
  }

  lemma SameIdsSameTexts(a: seq<Id>, b: seq<Id>, text: Id -> string)
    requires Rendering(text) && multiset(a) == multiset(b)
    ensures multiset(Texts(a, text)) == multiset(Texts(b, text))
  {
    forall t ensures multiset(Texts(a, text))[t] == multiset(Texts(b, text))[t] {
      if t in Texts(a, text) || t in Texts(b, text) {
        var id := if t in Texts(a, text) then WrittenAs(a, text, t) else WrittenAs(b, text, t);
        MultiplicityOfText(a, text, id);
        MultiplicityOfText(b, text, id);
      }
    }
  }

  lemma SameTextsSameIds(a: seq<Id>, b: seq<Id>, text: Id -> string)
    requires Rendering(text) && multiset(Texts(a, text)) == multiset(Texts(b, text))
    ensures multiset(a) == multiset(b)
  {
    forall id ensures multiset(a)[id] == multiset(b)[id] {
      MultiplicityOfText(a, text, id);
      MultiplicityOfText(b, text, id);
    }
  }

  lemma TextsDecideMultiset(a: seq<Id>, b: seq<Id>, text: Id -> string)
    requires Rendering(text)
    ensures multiset(Texts(a, text)) == multiset(Texts(b, text)) <==> multiset(a) == multiset(b)
  {
    if multiset(a) == multiset(b) {
      SameIdsSameTexts(a, b, text);
    }
    if multiset(Texts(a, text)) == multiset(Texts(b, text)) {
      SameTextsSameIds(a, b, text);
    }
  }

  lemma TextsAreClean(ids: seq<Id>, text: Id -> string)
    requires Rendering(text)
    ensures GroupKey.Clean(Texts(ids, text))
  {
    forall t | t in Texts(ids, text) ensures GroupKey.CleanText(t) {
      var id := WrittenAs(ids, text, t);
      assert GroupKey.CleanText(text(id));
    }
  }

  lemma RelationTextsDiffer(r: Relation, q: Relation)
    ensures RelationText(r) == RelationText(q) ==> r == q
    ensures ':' !in RelationText(r)
  {
    assert |RelationText(r)| == |RelationText(q)| ==> r == q || RelationText(r)[0] != RelationText(q)[0];
  }

  /** However ids are written (injectively, without separators), two groups of a run have
      equal key texts exactly when the model says they have the same key. */
  lemma KeyTextDecidesSameKey(g: Group, h: Group, text: Id -> string)
    requires Rendering(text) && g.run == h.run
    ensures KeyText(g, text) == KeyText(h, text) <==> SameKey(g, h)
  {
    hide GroupKey.ComputeGroupKey, GroupKey.Clean, RelationText, Rendering, Texts;
    TextsDecideMultiset(g.banks, h.banks, text);
    TextsDecideMultiset(g.ledgers, h.ledgers, text);
    TextsAreClean(g.banks, text);
    TextsAreClean(h.banks, text);
    TextsAreClean(g.ledgers, text);
    TextsAreClean(h.ledgers, text);
    RelationTextsDiffer(g.relation, h.relation);
    RelationTextsDiffer(h.relation, g.relation);
    GroupKey.KeyDecidesMembership(
      RelationText(g.relation), Texts(g.banks, text), Texts(g.ledgers, text),
      RelationText(h.relation), Texts(h.banks, text), Texts(h.ledgers, text));
  }

  // ---------------------------------------------------------------- evidence

  function LedgerRows(ids: seq<Id>, ledgers: LedgerTable): seq<LedgerRow>
    requires forall i | 0 <= i < |ids| :: ids[i] in ledgers
  {
    seq(|ids|, i requires 0 <= i < |ids| && ids[i] in ledgers => ledgers[ids[i]])
  }

  function BankRows(ids: seq<Id>, banks: BankTable): seq<BankRow>
    requires forall i | 0 <= i < |ids| :: ids[i] in banks
  {
    seq(|ids|, i requires 0 <= i < |ids| && ids[i] in banks => banks[ids[i]])
  }

  /** No live suggestion of any run names one of these ledger rows. */
  ghost predicate NotSuggested(ids: seq<Id>, s: Setting) {
    forall id | id in ids :: id !in SuggestionClaims(s)
  }

  /** One active bank row left unmatched by the run against two or more ledger rows that no live
      suggestion names, that carry one of its references and sum to its amount within tolerance. */
  ghost predicate OneToManyEvidence(g: Group, s: Setting) {
    && |g.banks| == 1 && g.banks[0] in s.banks && g.banks[0] in UnmatchedBanks(s) && s.banks[g.banks[0]].active
    && g.currency == s.banks[g.banks[0]].currency && (g.relation == Batch <==> s.banks[g.banks[0]].batch)
    && (forall id | id in g.ledgers :: id in s.ledgers && FitsBank(s.banks[g.banks[0]], s.ledgers[id], s.cfg))
    && NotSuggested(g.ledgers, s) && Distinct(g.ledgers) && 2 <= |g.ledgers| <= s.cfg.maxCandidates
    && g.bankTotal == s.banks[g.banks[0]].amount
    && g.ledgerTotal == Total(LedgerRows(g.ledgers, s.ledgers), LedgerAmount())
    && Within(g.ledgerTotal, g.bankTotal, Allowance(g.bankTotal, s.cfg.amountTolerancePct))
  }

  /** One ledger row of the period that no live suggestion names, and that has a reference of two
      bank rows in scope, against two or more bank rows around it. */
  ghost predicate ManyToOneEvidence(g: Group, s: Setting) {
    && |g.ledgers| == 1 && g.ledgers[0] in s.ledgers && NotSuggested(g.ledgers, s)
    && InLedgerPeriod(s.ledgers[g.ledgers[0]], s) && g.currency == s.ledgers[g.ledgers[0]].currency
    && SharesWithSeveral(s.ledgers[g.ledgers[0]], OneToOne.ScopeRows(s.banks, s.scope))
    && (forall id | id in g.banks :: id in s.banks && FitsLedger(s.ledgers[g.ledgers[0]], s.banks[id], s))
    && Distinct(g.banks) && 2 <= |g.banks| <= s.cfg.maxCandidates
    && (g.status == Pending ==> (g.relation == Batch <==> s.banks[g.banks[0]].batch))
    && g.ledgerTotal == s.ledgers[g.ledgers[0]].amount
    && g.bankTotal == Total(BankRows(g.banks, s.banks), BankAmount())
    && Within(g.bankTotal, g.ledgerTotal, Allowance(g.ledgerTotal, s.cfg.amountTolerancePct))
  }

  ghost predicate TransferEvidence(g: Group, s: Setting) {
    && g.banks == [] && |g.ledgers| == 2 && g.ledgers[0] != g.ledgers[1]
    && g.ledgers[0] in MatchedLedgers(s) && g.ledgers[0] in s.ledgers && g.ledgers[1] in s.ledgers
    && s.ledgers[g.ledgers[0]].transferPair.Some?
    && s.ledgers[g.ledgers[0]].transferPair == s.ledgers[g.ledgers[1]].transferPair
    && s.ledgers[g.ledgers[1]].entity == s.scope.entity
    && g.bankTotal == s.ledgers[g.ledgers[0]].amount && g.ledgerTotal == s.ledgers[g.ledgers[1]].amount
    && g.currency == s.ledgers[g.ledgers[0]].currency
  }

  ghost predicate FxEvidence(g: Group, s: Setting) {
    && |g.banks| == 1 && |g.ledgers| == 1 && g.banks[0] in UnmatchedBanks(s) && NotSuggested(g.ledgers, s)
    && g.banks[0] in s.banks && g.ledgers[0] in s.ledgers && s.banks[g.banks[0]].active
    && g.bankTotal == s.banks[g.banks[0]].amount && g.ledgerTotal == s.ledgers[g.ledgers[0]].amount
    && g.currency == s.ledgers[g.ledgers[0]].currency
    && CrossCurrency(s.banks[g.banks[0]], s.ledgers[g.ledgers[0]], s.cfg)
    && FxAgrees(s.banks[g.banks[0]], s.ledgers[g.ledgers[0]], s)
  }

  /** Only proposals and rivals are ever stored, and each relation has its own evidence. */
  ghost predicate Evidence(g: Group, s: Setting) {
    && g.run == s.run
    && g.status in {Pending, Ambiguous}
    && match g.relation
       case OneToMany => OneToManyEvidence(g, s)
       case ManyToOne => ManyToOneEvidence(g, s)
       case Batch => OneToManyEvidence(g, s) || ManyToOneEvidence(g, s)
       case InternalTransfer => g.status == Pending && TransferEvidence(g, s)
       case FxMatch => g.status == Pending && FxEvidence(g, s)
  }

  /** Everything stored beyond `before` has evidence, and keys stay unique. */
  ghost predicate Justified(before: seq<Group>, after: seq<Group>, s: Setting) {
    && KeysUnique(after)
    && forall g | g in after :: g in before || Evidence(g, s)
  }

  lemma PersistIsJustified(before: seq<Group>, groups: seq<Group>, g: Group, s: Setting)
    requires Justified(before, groups, s) && Evidence(g, s)
    ensures Justified(before, Persisted(groups, g), s)
  {
    hide Evidence;
    PersistingKeepsKeysUnique(groups, g);
  }

  lemma {:induction false} RivalsAreJustified(before: seq<Group>, groups: seq<Group>, rivals: seq<Group>, s: Setting)
    requires Justified(before, groups, s) && forall g | g in rivals :: Evidence(g, s)
    ensures Justified(before, PersistedAll(groups, rivals), s)
  {
    hide Evidence, Justified;
    if rivals != [] {
      RivalsAreJustified(before, groups, rivals[..|rivals| - 1], s);
      PersistIsJustified(before, PersistedAll(groups, rivals[..|rivals| - 1]), rivals[|rivals| - 1], s);
    }
  }

  // ---------------------------------------------------------------- one to many

  /** The rows of a candidate list are different rows of the table that fit the bank row. */
  ghost predicate FitList(rows: seq<LedgerRow>, b: BankRow, s: Setting) {
    && (forall l | l in rows :: l in s.ledgers.Values && FitsBank(b, l, s.cfg) && l.id !in SuggestionClaims(s))
    && Distinct(LedgerIds(rows))
    && |rows| <= s.cfg.maxCandidates
  }

  lemma FirstLedgersFit(listed: seq<LedgerRow>, b: BankRow, s: Setting)
    requires forall l | l in listed ::
               l in s.ledgers.Values && FitsBank(b, l, s.cfg) && l.id !in SuggestionClaims(s)
    requires DifferentLedgers(listed)
    ensures FitList(FirstRows(listed, s.cfg.maxCandidates), b, s)
  {
    hide FitsBank, SuggestionClaims;
    var rows := FirstRows(listed, s.cfg.maxCandidates);
    assert forall i | 0 <= i < |rows| :: rows[i] == listed[i];
    forall l | l in rows ensures l in listed {
    }
  }

  lemma LedgerCandidatesFit(b: BankRow, s: Setting, claimed: set<Id>)
    requires SuggestionClaims(s) <= claimed
    ensures FitList(LedgerCandidates(b, s.ledgers, s.cfg, claimed), b, s)
  {
    var pool := LedgerPool(b, s.ledgers, s.cfg, claimed);
    GroupExclusivity.LedgerListing(pool, s.ledgers);
    hide InOrder, FitsBank, FitList, FirstRows, SuggestionClaims, DifferentLedgers;
    FirstLedgersFit(InOrder(pool, LedgerKey()), b, s);
  }

  /** Leaving members out keeps a list fit. */
  lemma SubsetFits(rows: seq<LedgerRow>, kept: seq<LedgerRow>, b: BankRow, s: Setting)
    requires FitList(rows, b, s)
    requires kept == rows || exists i: nat | i < |rows| :: kept == DropAt(rows, i)
    ensures FitList(kept, b, s)
  {
    hide FitsBank, SuggestionClaims;
    if kept != rows {
      var i: nat :| i < |rows| && kept == DropAt(rows, i);
      assert forall k | 0 <= k < |kept| :: kept[k] == rows[if k < i then k else k + 1];
      assert forall k | 0 <= k < |kept| :: LedgerIds(kept)[k] == LedgerIds(rows)[if k < i then k else k + 1];
    }
  }

  lemma LedgerGroupHasEvidence(b: BankRow, s: Setting, status: GroupStatus, rows: seq<LedgerRow>)
    requires b in s.banks.Values && b.active && b.id in UnmatchedBanks(s)
    requires FitList(rows, b, s) && |rows| >= 2 && status in {Pending, Ambiguous}
    requires Within(Total(rows, LedgerAmount()), b.amount, Allowance(b.amount, s.cfg.amountTolerancePct))
    ensures Evidence(LedgerGroup(s.run, b, status, rows), s)
  {
    hide FitsBank, Within, Allowance, Total, SuggestionClaims, UnmatchedBanks;
    var g := LedgerGroup(s.run, b, status, rows);
    forall id | id in g.ledgers
      ensures id in s.ledgers && FitsBank(b, s.ledgers[id], s.cfg) && id !in SuggestionClaims(s)
    {
      var i :| 0 <= i < |rows| && rows[i].id == id;
      assert rows[i] in rows;
    }
    assert forall i | 0 <= i < |rows| :: rows[i] in rows;
    assert LedgerRows(g.ledgers, s.ledgers) == rows;
  }

  lemma OneToManyTurnIsJustified(before: seq<Group>, p: Progress, s: Setting, b: BankRow, base: set<Id>)
    requires Justified(before, p.groups, s) && b in s.banks.Values && b.active && b.id in UnmatchedBanks(s)
    requires SuggestionClaims(s) <= base
    ensures Justified(before, OneToManyTurn(p, s, b, base).groups, s)
  {
    hide Justified, Evidence, LedgerCandidates, Answer, FitList, PersistedAll, Within, SuggestionClaims, UnmatchedBanks;
    var candidates := LedgerCandidates(b, s.ledgers, s.cfg, base + p.found.ledgers);
    LedgerCandidatesFit(b, s, base + p.found.ledgers);
    if |candidates| >= 2 {
      var allowed := Allowance(b.amount, s.cfg.amountTolerancePct);
      match Answer(candidates, b.amount, allowed, LedgerAmount())
      case Accept(rows) =>
        SearchIsSound(candidates, b.amount, allowed, LedgerAmount(), rows);
        SubsetFits(candidates, rows, b, s);
        LedgerGroupHasEvidence(b, s, Pending, rows);
        PersistIsJustified(before, p.groups, LedgerGroup(s.run, b, Pending, rows), s);
      case Compete(alternates) =>
        var rivals := LedgerRivals(s.run, b, alternates);
        forall g | g in rivals ensures Evidence(g, s) {
          var i :| 0 <= i < |alternates| && rivals[i] == g;
          SearchIsSound(candidates, b.amount, allowed, LedgerAmount(), alternates[i]);
          SubsetFits(candidates, alternates[i], b, s);
          LedgerGroupHasEvidence(b, s, Ambiguous, alternates[i]);
        }
        RivalsAreJustified(before, p.groups, rivals, s);
      case NoGrouping =>
    }
  }

  lemma {:induction false} OneToManyRowsAreJustified(
    before: seq<Group>, start: Progress, s: Setting, rows: seq<BankRow>, base: set<Id>)
    requires Justified(before, start.groups, s) && SuggestionClaims(s) <= base
    requires forall b | b in rows :: b in s.banks.Values && b.active && b.id in UnmatchedBanks(s)
    ensures Justified(before, OneToManyRows(start, s, rows, base).groups, s)
  {
    hide Justified, OneToManyTurn, SuggestionClaims, UnmatchedBanks;
    if rows != [] {
      OneToManyRowsAreJustified(before, start, s, rows[..|rows| - 1], base);
      OneToManyTurnIsJustified(before, OneToManyRows(start, s, rows[..|rows| - 1], base), s, rows[|rows| - 1], base);
    }
  }

  // ---------------------------------------------------------------- many to one

  ghost predicate FitBankList(rows: seq<BankRow>, l: LedgerRow, s: Setting) {
    && (forall b | b in rows :: b in s.banks.Values && FitsLedger(l, b, s))
    && Distinct(BankIds(rows))
    && |rows| <= s.cfg.maxCandidates
  }

  ghost predicate Groupable(l: LedgerRow, s: Setting) {
    InLedgerPeriod(l, s) && SharesWithSeveral(l, OneToOne.ScopeRows(s.banks, s.scope))
  }

  lemma FirstBanksFit(listed: seq<BankRow>, l: LedgerRow, s: Setting)
    requires forall b | b in listed :: b in s.banks.Values && FitsLedger(l, b, s)
    requires DifferentBanks(listed)
    ensures FitBankList(FirstRows(listed, s.cfg.maxCandidates), l, s)
  {
    hide FitsLedger;
    var rows := FirstRows(listed, s.cfg.maxCandidates);
    assert forall i | 0 <= i < |rows| :: rows[i] == listed[i];
    forall b | b in rows ensures b in listed {
    }
  }

  lemma BankCandidatesFit(l: LedgerRow, s: Setting, grouped: set<Id>)
    ensures FitBankList(BankCandidates(l, s, grouped), l, s)
  {
    var pool := BankPool(l, s, grouped);
    GroupExclusivity.BankListing(pool, s.banks);
    hide InOrder, FitsLedger, FitBankList, FirstRows, DifferentBanks;
    FirstBanksFit(InOrder(pool, OneToOne.BankKey()), l, s);
  }

  lemma BankSubsetFits(rows: seq<BankRow>, kept: seq<BankRow>, l: LedgerRow, s: Setting)
    requires FitBankList(rows, l, s)
    requires kept == rows || exists i: nat | i < |rows| :: kept == DropAt(rows, i)
    ensures FitBankList(kept, l, s)
  {
    hide FitsLedger;
    if kept != rows {
      var i: nat :| i < |rows| && kept == DropAt(rows, i);
      assert forall k | 0 <= k < |kept| :: kept[k] == rows[if k < i then k else k + 1];
      assert forall k | 0 <= k < |kept| :: BankIds(kept)[k] == BankIds(rows)[if k < i then k else k + 1];
    }
  }

  lemma BankGroupHasEvidence(l: LedgerRow, s: Setting, status: GroupStatus, first: BankRow, rows: seq<BankRow>)
    requires l in s.ledgers.Values && l.id !in SuggestionClaims(s) && Groupable(l, s)
    requires FitBankList(rows, l, s) && |rows| >= 2 && status in {Pending, Ambiguous}
    requires Within(Total(rows, BankAmount()), l.amount, Allowance(l.amount, s.cfg.amountTolerancePct))
    requires status == Pending ==> first == rows[0]
    ensures Evidence(BankGroup(s.run, l, status, first, rows), s)
  {
    hide FitsLedger, InLedgerPeriod, SharesWithSeveral, Within, Allowance, Total, SuggestionClaims, FitBankList;
    var g := BankGroup(s.run, l, status, first, rows);
    FitListIsStored(rows, l, s);
  }

  lemma FitListIsStored(rows: seq<BankRow>, l: LedgerRow, s: Setting)
    requires FitBankList(rows, l, s)
    ensures var ids := BankIds(rows);
            && (forall id | id in ids :: id in s.banks && FitsLedger(l, s.banks[id], s))
            && Distinct(ids) && |ids| <= s.cfg.maxCandidates
            && (forall i | 0 <= i < |ids| :: ids[i] in s.banks && s.banks[ids[i]] == rows[i])
            && BankRows(ids, s.banks) == rows
  {
    hide FitsLedger;
    var ids := BankIds(rows);
    forall id | id in ids ensures id in s.banks && FitsLedger(l, s.banks[id], s) {
      var i :| 0 <= i < |rows| && rows[i].id == id;
      assert rows[i] in rows;
    }
    forall i | 0 <= i < |ids| ensures ids[i] in s.banks && s.banks[ids[i]] == rows[i] {
      assert rows[i] in rows;
    }
    assert BankRows(ids, s.banks) == rows;
  }

  lemma ManyToOneTurnIsJustified(before: seq<Group>, p: Progress, s: Setting, l: LedgerRow, base: set<Id>)
    requires Justified(before, p.groups, s)
    requires l in s.ledgers.Values && l.id !in SuggestionClaims(s) && Groupable(l, s)
    ensures Justified(before, ManyToOneTurn(p, s, l, base).groups, s)
  {
    hide Justified, Evidence, BankCandidates, Answer, FitBankList, PersistedAll, Within, SuggestionClaims,
         Groupable;
    var candidates := BankCandidates(l, s, base + p.found.banks);
    BankCandidatesFit(l, s, base + p.found.banks);
    if |candidates| >= 2 {
      var allowed := Allowance(l.amount, s.cfg.amountTolerancePct);
      match Answer(candidates, l.amount, allowed, BankAmount())
      case Accept(rows) =>
        SearchIsSound(candidates, l.amount, allowed, BankAmount(), rows);
        BankSubsetFits(candidates, rows, l, s);
        BankGroupHasEvidence(l, s, Pending, rows[0], rows);
        PersistIsJustified(before, p.groups, BankGroup(s.run, l, Pending, rows[0], rows), s);
      case Compete(alternates) =>
        var rivals := BankRivals(s.run, l, candidates[0], alternates);
        forall g | g in rivals ensures Evidence(g, s) {
          var i :| 0 <= i < |alternates| && rivals[i] == g;
          SearchIsSound(candidates, l.amount, allowed, BankAmount(), alternates[i]);
          BankSubsetFits(candidates, alternates[i], l, s);
          BankGroupHasEvidence(l, s, Ambiguous, candidates[0], alternates[i]);
        }
        RivalsAreJustified(before, p.groups, rivals, s);
      case NoGrouping =>
    }
  }

  lemma {:induction false} ManyToOneRowsAreJustified(
    before: seq<Group>, start: Progress, s: Setting, rows: seq<LedgerRow>, base: set<Id>)
    requires Justified(before, start.groups, s)
    requires forall l | l in rows :: l in s.ledgers.Values && l.id !in SuggestionClaims(s) && Groupable(l, s)
    ensures Justified(before, ManyToOneRows(start, s, rows, base).groups, s)
  {
    hide Justified, ManyToOneTurn, SuggestionClaims, Groupable;
    if rows != [] {
      ManyToOneRowsAreJustified(before, start, s, rows[..|rows| - 1], base);
      ManyToOneTurnIsJustified(before, ManyToOneRows(start, s, rows[..|rows| - 1], base), s, rows[|rows| - 1], base);
    }
  }

  // ---------------------------------------------------------------- transfers and conversions

  lemma {:induction false} TransfersAreJustified(
    before: seq<Group>, start: Progress, s: Setting, primaries: seq<LedgerRow>, partners: seq<Option<LedgerRow>>)
    requires Justified(before, start.groups, s) && |primaries| == |partners|
    requires forall l | l in primaries :: l in Primaries(s.ledgers, MatchedLedgers(s))
    requires forall i | 0 <= i < |partners| :: PartnerOf(s.ledgers, primaries[i], partners[i])
    ensures Justified(before, TransferRows(start, s, primaries, partners).groups, s)
  {
    hide Justified, Evidence, MatchedLedgers;
    if primaries != [] {
      var front := TransferRows(start, s, primaries[..|primaries| - 1], partners[..|partners| - 1]);
      TransfersAreJustified(before, start, s, primaries[..|primaries| - 1], partners[..|partners| - 1]);
      var primary, partner := primaries[|primaries| - 1], partners[|partners| - 1];
      if partner.Some? && partner.value.entity == s.scope.entity {
        TransferGroupHasEvidence(s, primary, partner.value);
        PersistIsJustified(before, front.groups, TransferGroup(s.run, primary, partner.value), s);
      }
    }
  }

  lemma TransferGroupHasEvidence(s: Setting, primary: LedgerRow, partner: LedgerRow)
    requires primary in Primaries(s.ledgers, MatchedLedgers(s)) && partner in Partners(s.ledgers, primary)
    requires partner.entity == s.scope.entity
    ensures Evidence(TransferGroup(s.run, primary, partner), s)
  {
  }

  lemma {:induction false} FxRowsAreJustified(
    before: seq<Group>, start: Progress, s: Setting, rows: seq<BankRow>, choices: seq<Option<LedgerRow>>, base: set<Id>)
    requires Justified(before, start.groups, s) && |rows| == |choices| && PossibleFx(start, s, rows, choices, base)
    requires SuggestionClaims(s) <= base
    requires forall b | b in rows :: b in s.banks.Values && b.active && b.id in UnmatchedBanks(s)
    ensures Justified(before, FxRows(start, s, rows, choices).groups, s)
  {
    hide Justified, Evidence, UnmatchedBanks, SuggestionClaims, FxAgrees, CrossCurrency;
    if rows != [] {
      var front, b, choice := rows[..|rows| - 1], rows[|rows| - 1], choices[|choices| - 1];
      FxRowsAreJustified(before, start, s, front, choices[..|choices| - 1], base);
      if choice.Some? {
        var p := FxRows(start, s, front, choices[..|choices| - 1]);
        FxGroupHasEvidence(s, b, choice.value, base + p.found.ledgers);
        PersistIsJustified(before, p.groups, FxGroup(s.run, b, choice.value), s);
      }
    }
  }

  lemma FxGroupHasEvidence(s: Setting, b: BankRow, l: LedgerRow, claimed: set<Id>)
    requires b in s.banks.Values && b.active && b.id in UnmatchedBanks(s) && FxChoice(b, s, claimed, Some(l))
    requires SuggestionClaims(s) <= claimed
    ensures Evidence(FxGroup(s.run, b, l), s)
  {
    hide FxAgrees, CrossCurrency, UnmatchedBanks, SuggestionClaims;
  }

  // ---------------------------------------------------------------- an execution

  lemma ActiveRowsListed(banks: BankTable, ids: set<Id>)
    ensures forall b | b in InOrder(ActiveRows(banks, ids), OneToOne.BankKey()) ::
              b in banks.Values && b.active && b.id in ids
  {
    GroupExclusivity.BankListing(ActiveRows(banks, ids), banks);
  }

  lemma GroupableLedgersListed(s: Setting, claimed: set<Id>)
    ensures Separates(GroupableLedgers(s, claimed), LedgerKey())
    ensures forall l | l in InOrder(GroupableLedgers(s, claimed), LedgerKey()) ::
              l in s.ledgers.Values && l.id !in claimed && Groupable(l, s)
  {
    GroupExclusivity.LedgerListing(GroupableLedgers(s, claimed), s.ledgers);
  }

  lemma OneToManyPhaseIsJustified(before: seq<Group>, groups: seq<Group>, s: Setting, unmatched: set<Id>, base: set<Id>)
    requires Justified(before, groups, s) && unmatched <= UnmatchedBanks(s) && SuggestionClaims(s) <= base
    ensures Justified(before, OneToManyPhase(groups, s, unmatched, base).groups, s)
  {
    hide Justified, OneToManyRows, UnmatchedBanks, SuggestionClaims;
    ActiveRowsListed(s.banks, unmatched);
    var rows := InOrder(ActiveRows(s.banks, unmatched), OneToOne.BankKey());
    OneToManyRowsAreJustified(before, Begin(groups), s, rows, base);
  }

  lemma ManyToOnePhaseIsJustified(
    before: seq<Group>, groups: seq<Group>, s: Setting, claimed: set<Id>, grouped: set<Id>)
    requires Justified(before, groups, s) && SuggestionClaims(s) <= claimed
    ensures Justified(before, ManyToOnePhase(groups, s, claimed, grouped).groups, s)
  {
    hide Justified, GroupableLedgers, ManyToOneRows, SuggestionClaims, Groupable;
    GroupableLedgersListed(s, claimed);
    ManyToOneRowsAreJustified(before, Begin(groups), s, InOrder(GroupableLedgers(s, claimed), LedgerKey()), grouped);
  }

  /** Every group an execution stores rests on its evidence, and no run ever has two groups
      with one key. */
  lemma ExecutionIsJustified(groups: seq<Group>, s: Setting, c: Choices)
    requires KeysUnique(groups) && Possible(groups, s, c)
    ensures Justified(groups, Execution(groups, s, c).0, s)
  {
    hide OneToManyPhase, ManyToOnePhase, KeysUnique, Evidence, UnmatchedBanks, MatchedLedgers, SuggestionClaims,
         ClaimedBanks, ClaimedLedgers, PartnerOf, Primaries, PossibleFx, InOrder, ActiveRows;
    var ledgers := ClaimedLedgers(groups, s.ledgers, s.scope.entity);
    var banks := ClaimedBanks(groups, s.banks, s.scope.entity);
    OneToManyPhaseIsJustified(groups, groups, s, UnmatchedBanks(s) - banks, SuggestionClaims(s) + ledgers);
    var first := OneToManyPhase(groups, s, UnmatchedBanks(s) - banks, SuggestionClaims(s) + ledgers);
    var claimed, grouped := SuggestionClaims(s) + (ledgers + first.found.ledgers), banks + first.found.banks;
    ManyToOnePhaseIsJustified(groups, first.groups, s, claimed, grouped);
    var two := TwoPhases(groups, s);
    assert forall l | l in c.primaries :: l in Elements(c.primaries);
    TransfersAreJustified(groups, Begin(two.groups), s, c.primaries, c.partners);
    var transfers := TransferRows(Begin(two.groups), s, c.primaries, c.partners);
    ActiveRowsListed(s.banks, UnmatchedBanks(s) - banks - two.banks);
    FxRowsAreJustified(groups, Begin(transfers.groups), s, LeftForFx(groups, s), c.conversions,
                       SuggestionClaims(s) + two.ledgers);
  }

  // ---------------------------------------------------------------- one group for the two legs

  ghost predicate StoredOnce(groups: seq<Group>, g: Group) {
    exists i | 0 <= i < |groups| ::
      SameKey(groups[i], g) && forall j | 0 <= j < |groups| && SameKey(groups[j], g) :: j == i
  }

  lemma KnownIsStoredOnce(groups: seq<Group>, g: Group)
    requires KeysUnique(groups) && Known(groups, g)
    ensures StoredOnce(groups, g)
  {
    var h :| h in groups && SameKey(h, g);
    var i :| 0 <= i < |groups| && groups[i] == h;
    forall j | 0 <= j < |groups| && SameKey(groups[j], g) ensures j == i {
      assert SameKey(groups[j], groups[i]) && SameKey(groups[i], groups[j]);
    }
  }

  lemma {:induction false} TransferRowsKeepAndStore(
    start: Progress, s: Setting, primaries: seq<LedgerRow>, partners: seq<Option<LedgerRow>>, k: nat)
    requires |primaries| == |partners| && k < |primaries| && KeysUnique(start.groups)
    requires partners[k].Some? && partners[k].value.entity == s.scope.entity
    ensures var after := TransferRows(start, s, primaries, partners).groups;
            KeysUnique(after) && Known(after, TransferGroup(s.run, primaries[k], partners[k].value))
  {
    hide KeysUnique, TransferGroup, SameKey;
    var front, others := primaries[..|primaries| - 1], partners[..|partners| - 1];
    TransferRowsKeepKeys(start, s, front, others);
    TransferRowsKeepKeys(start, s, primaries, partners);
    if k < |front| {
      TransferRowsKeepAndStore(start, s, front, others, k);
    }
    if partners[|front|].Some? {
      SameKeyIsReflexive(TransferGroup(s.run, primaries[|front|], partners[|front|].value));
    }
  }

  lemma SameKeyIsReflexive(g: Group)
    ensures SameKey(g, g)
  {
  }

  lemma {:induction false} TransferRowsKeepKeys(
    start: Progress, s: Setting, primaries: seq<LedgerRow>, partners: seq<Option<LedgerRow>>)
    requires |primaries| == |partners| && KeysUnique(start.groups)
    ensures KeysUnique(TransferRows(start, s, primaries, partners).groups)
  {
    hide KeysUnique;
    if primaries != [] {
      var p := TransferRows(start, s, primaries[..|primaries| - 1], partners[..|partners| - 1]);
      TransferRowsKeepKeys(start, s, primaries[..|primaries| - 1], partners[..|partners| - 1]);
      if partners[|partners| - 1].Some? {
        PersistingKeepsKeysUnique(p.groups,
            TransferGroup(s.run, primaries[|primaries| - 1], partners[|partners| - 1].value));
      }
    }
  }

  /** A transfer whose two legs were both matched, found from either leg or from both, ends
      as one stored group. */
  lemma BothLegsGiveOneGroup(
    groups: seq<Group>, s: Setting, primaries: seq<LedgerRow>, partners: seq<Option<LedgerRow>>, a: LedgerRow,
    b: LedgerRow)
    requires KeysUnique(groups) && PossibleTransfers(s, MatchedLedgers(s), primaries, partners)
    requires a in Primaries(s.ledgers, MatchedLedgers(s)) && b in s.ledgers.Values && b.entity == s.scope.entity
    requires Partners(s.ledgers, a) == {b}
    ensures StoredOnce(TransferRows(Begin(groups), s, primaries, partners).groups, TransferGroup(s.run, a, b))
    ensures StoredOnce(TransferRows(Begin(groups), s, primaries, partners).groups, TransferGroup(s.run, b, a))
  {
    hide KeysUnique, TransferRows, MatchedLedgers, StoredOnce;
    assert a in Elements(primaries);
    var k :| 0 <= k < |primaries| && primaries[k] == a;
    assert PartnerOf(s.ledgers, primaries[k], partners[k]);
    TransferRowsKeepAndStore(Begin(groups), s, primaries, partners, k);
    var after := TransferRows(Begin(groups), s, primaries, partners).groups;
    KnownIsStoredOnce(after, TransferGroup(s.run, a, b));
    KnownIsStoredOnce(after, TransferGroup(s.run, b, a));
  }
}
