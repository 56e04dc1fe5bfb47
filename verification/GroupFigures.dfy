/** What a new group rests on, in terms of the rows and figures themselves, and that a turn groups
    what fits. */
module GroupFigures {
  import opened RowOrder
  import opened GroupSearch
  import opened ReconciliationModel
  import opened AdvancedMatching
  import opened GroupEvidence
  import GroupExclusivity
  import OneToOne = OneToOneMatching

  // ---------------------------------------------------------------- what is read off the rows

  function SumOver(ids: seq<Id>, amount: Id -> int): int {
    if ids == [] then 0 else amount(ids[0]) + SumOver(ids[1..], amount)
  }

  function InLedger(ledgers: LedgerTable): Id -> int {
    (id: Id) => if id in ledgers then ledgers[id].amount else 0
  }

  function AtBank(banks: BankTable): Id -> int {
    (id: Id) => if id in banks then banks[id].amount else 0
  }

  /** At most `pct` percent of `target` lie between the two. */
  predicate InTolerance(figure: real, target: int, pct: real) {
    -pct * target as real <= 100.0 * (figure - target as real) <= pct * target as real
  }

  predicate NearInTime(b: BankRow, l: LedgerRow, cfg: Config) {
    -cfg.dateToleranceDays <= l.date - b.date <= cfg.dateToleranceDays
  }

  predicate ShareAReference(b: BankRow, l: LedgerRow) {
    exists r | r in b.refs :: r in l.refs
  }

  predicate SameWay(b: BankRow, l: LedgerRow) {
    (l.direction == Inflow && b.entry == Credit) || (l.direction == Outflow && b.entry == Debit)
  }

  /** The run found nothing for this bank row. */
  ghost predicate LeftAlone(s: Setting, bank: Id) {
    exists x | x in s.suggestions :: x.run == s.run && x.bank == bank && x.ledger == None
  }

  /** A pending or accepted suggestion names this ledger row of the entity. */
  ghost predicate Named(s: Setting, ledger: Id) {
    && ledger in s.ledgers && s.ledgers[ledger].entity == s.scope.entity
    && exists x | x in s.suggestions :: x.ledger == Some(ledger) && x.status in {OneToOne.Pending, OneToOne.Accepted}
  }

  predicate InRunScope(b: BankRow, s: Setting) {
    && b.active && b.entity == s.scope.entity && b.account == s.scope.account
    && s.scope.periodStart <= b.date <= s.scope.periodEnd
  }

  /** A ledger row that can be one of several around a bank row. */
  predicate FitsAround(b: BankRow, l: LedgerRow, cfg: Config) {
    && l.entity == b.entity && l.account == b.account && l.currency == b.currency && l.posted
    && SameWay(b, l) && NearInTime(b, l, cfg) && ShareAReference(b, l)
  }

  /** A bank row that can be one of several around a ledger row. */
  predicate FitsInto(l: LedgerRow, b: BankRow, s: Setting) {
    && b.entity == s.scope.entity && b.account == s.scope.account && b.currency == l.currency && b.active
    && (b.entry == Credit <==> l.direction == Inflow) && NearInTime(b, l, s.cfg) && ShareAReference(b, l)
  }

  /** A ledger row bank rows can be collected around: booked near the period, with a reference that two
      bank rows in scope carry. */
  ghost predicate Collects(l: LedgerRow, s: Setting) {
    && l.entity == s.scope.entity && l.account == s.scope.account && l.posted
    && s.scope.periodStart - s.cfg.dateToleranceDays <= l.date <= s.scope.periodEnd + s.cfg.dateToleranceDays
    && CarriedTwice(l, s)
  }

  ghost predicate CarriedTwice(l: LedgerRow, s: Setting) {
    exists r, a, b :: && r in l.refs && r != "" && a in s.banks.Values && b in s.banks.Values && a != b
                      && InRunScope(a, s) && InRunScope(b, s) && r in a.refs && r in b.refs
  }

  /** A ledger row in another currency that agrees with the bank row once converted. */
  predicate ConvertsTo(b: BankRow, l: LedgerRow, s: Setting) {
    && l.entity == b.entity && l.account == b.account && l.currency != b.currency && l.posted
    && SameWay(b, l) && NearInTime(b, l, s.cfg)
    && s.convert(b, l).Some? && InTolerance(s.convert(b, l).value, l.amount, s.cfg.fxTolerancePct)
  }

  // ---------------------------------------------------------------- one kind of group each

  /** One bank row against several ledger rows. */
  ghost predicate RestsOnOneBankRow(g: Group, s: Setting) {
    && |g.banks| == 1 && g.banks[0] in s.banks && Distinct(g.ledgers) && 2 <= |g.ledgers| <= s.cfg.maxCandidates
    && var b := s.banks[g.banks[0]];
    && b.active && LeftAlone(s, b.id) && g.currency == b.currency && (g.relation == Batch <==> b.batch)
    && (forall id | id in g.ledgers :: id in s.ledgers && !Named(s, id) && FitsAround(b, s.ledgers[id], s.cfg))
    && g.bankTotal == b.amount && g.ledgerTotal == SumOver(g.ledgers, InLedger(s.ledgers))
    && InTolerance(g.ledgerTotal as real, g.bankTotal, s.cfg.amountTolerancePct)
  }

  /** One ledger row against several bank rows. */
  ghost predicate RestsOnOneLedgerRow(g: Group, s: Setting) {
    && |g.ledgers| == 1 && g.ledgers[0] in s.ledgers && Distinct(g.banks) && 2 <= |g.banks| <= s.cfg.maxCandidates
    && var l := s.ledgers[g.ledgers[0]];
    && Collects(l, s) && !Named(s, l.id) && g.currency == l.currency
    && (forall id | id in g.banks :: id in s.banks && FitsInto(l, s.banks[id], s))
    && (g.status == Pending ==> (g.relation == Batch <==> s.banks[g.banks[0]].batch))
    && g.ledgerTotal == l.amount && g.bankTotal == SumOver(g.banks, AtBank(s.banks))
    && InTolerance(g.bankTotal as real, g.ledgerTotal, s.cfg.amountTolerancePct)
  }

  /** The leg of a transfer that the run suggested, and the other leg of its pair. */
  ghost predicate RestsOnAPair(g: Group, s: Setting) {
    && g.banks == [] && |g.ledgers| == 2 && g.ledgers[0] in s.ledgers && g.ledgers[1] in s.ledgers
    && var l, k := s.ledgers[g.ledgers[0]], s.ledgers[g.ledgers[1]];
    && l.id != k.id && l.transferPair.Some? && l.transferPair == k.transferPair && k.entity == s.scope.entity
    && (exists x | x in s.suggestions :: x.run == s.run && x.ledger == Some(l.id))
    && g.bankTotal == l.amount && g.ledgerTotal == k.amount && g.currency == l.currency
  }

  /** A bank row and a ledger row in different currencies, agreeing once converted. */
  ghost predicate RestsOnAConversion(g: Group, s: Setting) {
    && |g.banks| == 1 && |g.ledgers| == 1 && g.banks[0] in s.banks && g.ledgers[0] in s.ledgers
    && var b, l := s.banks[g.banks[0]], s.ledgers[g.ledgers[0]];
    && b.active && LeftAlone(s, b.id) && !Named(s, l.id) && ConvertsTo(b, l, s)
    && g.bankTotal == b.amount && g.ledgerTotal == l.amount && g.currency == l.currency
  }

  ghost predicate RestsOnItsRows(g: Group, s: Setting) {
    && g.run == s.run
    && match g.relation
       case OneToMany => g.status in {Pending, Ambiguous} && RestsOnOneBankRow(g, s)
       case ManyToOne => g.status in {Pending, Ambiguous} && RestsOnOneLedgerRow(g, s)
       case Batch => g.status in {Pending, Ambiguous} && (RestsOnOneBankRow(g, s) || RestsOnOneLedgerRow(g, s))
       case InternalTransfer => g.status == Pending && RestsOnAPair(g, s)
       case FxMatch => g.status == Pending && RestsOnAConversion(g, s)
  }

  // ---------------------------------------------------------------- evidence says the same

  lemma AllowanceIsPercent(target: int, pct: real)
    ensures 100.0 * Allowance(target, pct) == pct * target as real
  {
  }

  lemma WithinIsInTolerance(total: int, target: int, pct: real)
    ensures Within(total, target, Allowance(target, pct)) <==> InTolerance(total as real, target, pct)
  {
    AllowanceIsPercent(target, pct);
    assert Distance(total, target) as real == if total < target then (target - total) as real
        else (total - target) as real;
  }

  lemma {:induction false} LedgerTotalIsSum(ids: seq<Id>, ledgers: LedgerTable)
    requires forall i | 0 <= i < |ids| :: ids[i] in ledgers
    ensures Total(LedgerRows(ids, ledgers), LedgerAmount()) == SumOver(ids, InLedger(ledgers))
  {
    if ids != [] {
      LedgerTotalIsSum(ids[1..], ledgers);
      var l := ledgers[ids[0]];
      assert LedgerRows(ids, ledgers) == [l] + LedgerRows(ids[1..], ledgers);
      TotalOfParts([l], LedgerRows(ids[1..], ledgers), LedgerAmount());
      TotalOfOne(l, LedgerAmount());
    }
  }

  lemma {:induction false} BankTotalIsSum(ids: seq<Id>, banks: BankTable)
    requires forall i | 0 <= i < |ids| :: ids[i] in banks
    ensures Total(BankRows(ids, banks), BankAmount()) == SumOver(ids, AtBank(banks))
  {
    if ids != [] {
      BankTotalIsSum(ids[1..], banks);
      var b := banks[ids[0]];
      assert BankRows(ids, banks) == [b] + BankRows(ids[1..], banks);
      TotalOfParts([b], BankRows(ids[1..], banks), BankAmount());
      TotalOfOne(b, BankAmount());
    }
  }

  lemma LeftAloneIsUnmatched(s: Setting, bank: Id)
    ensures bank in UnmatchedBanks(s) <==> LeftAlone(s, bank)
  {
  }

  lemma NamedIsClaimed(s: Setting, ledger: Id)
    ensures ledger in SuggestionClaims(s) <==> Named(s, ledger)
  {
  }

  lemma SharingIsACommonReference(b: BankRow, l: LedgerRow)
    ensures SharesReference(b, l) <==> ShareAReference(b, l)
  {
    if ShareAReference(b, l) {
      var r :| r in b.refs && r in l.refs;
      assert r in b.refs * l.refs;
    }
  }

  lemma FittingAround(b: BankRow, l: LedgerRow, cfg: Config)
    ensures FitsBank(b, l, cfg) <==> FitsAround(b, l, cfg)
  {
    SharingIsACommonReference(b, l);
    hide SharesReference, ShareAReference;
  }

  lemma FittingInto(l: LedgerRow, b: BankRow, s: Setting)
    ensures FitsLedger(l, b, s) <==> FitsInto(l, b, s)
  {
    SharingIsACommonReference(b, l);
    hide SharesReference, ShareAReference;
  }

  /** The ledger rows tried as the one side of several are exactly those. */
  lemma GroupableExactlyWhen(s: Setting, claimed: set<Id>, l: LedgerRow)
    ensures l in GroupableLedgers(s, claimed) <==> l in s.ledgers.Values && l.id !in claimed && Collects(l, s)
  {
    CollectsExactlyWhen(l, s);
    hide InLedgerPeriod, SharesWithSeveral, Collects;
  }

  lemma CollectsExactlyWhen(l: LedgerRow, s: Setting)
    ensures InLedgerPeriod(l, s) && SharesWithSeveral(l, OneToOne.ScopeRows(s.banks, s.scope)) <==> Collects(l, s)
  {
    CarriedTwiceExactlyWhen(l, s);
    hide CarriedTwice, SharesWithSeveral;
  }

  lemma CarriedTwiceExactlyWhen(l: LedgerRow, s: Setting)
    ensures SharesWithSeveral(l, OneToOne.ScopeRows(s.banks, s.scope)) <==> CarriedTwice(l, s)
  {
    var rows := OneToOne.ScopeRows(s.banks, s.scope);
    assert forall b :: b in rows <==> b in s.banks.Values && InRunScope(b, s);
    hide OneToOne.ScopeRows, InRunScope;
    if CarriedTwice(l, s) {
      var r, a, b :| && r in l.refs && r != "" && a in s.banks.Values && b in s.banks.Values && a != b
                     && InRunScope(a, s) && InRunScope(b, s) && r in a.refs && r in b.refs;
      assert SharedReference(r, rows);
    }
  }

  /** What the unordered conversion query can end in: any unclaimed ledger row that agrees, and nothing
      only when none does. */
  lemma ConversionsExactlyWhen(b: BankRow, s: Setting, claimed: set<Id>, choice: Option<LedgerRow>)
    ensures FxChoice(b, s, claimed, choice) <==>
            match choice
            case Some(l) => l in s.ledgers.Values && l.id !in claimed && ConvertsTo(b, l, s)
            case None => forall l | l in s.ledgers.Values && l.id !in claimed :: !ConvertsTo(b, l, s)
  {
    forall l ensures CrossCurrency(b, l, s.cfg) && FxAgrees(b, l, s) <==> ConvertsTo(b, l, s) {
      AllowanceIsPercent(l.amount, s.cfg.fxTolerancePct);
    }
    hide CrossCurrency, FxAgrees, ConvertsTo;
  }

  lemma OneBankRowEvidence(g: Group, s: Setting)
    requires OneToManyEvidence(g, s)
    ensures RestsOnOneBankRow(g, s)
  {
    hide Distinct, UnmatchedBanks, SuggestionClaims, LeftAlone, Named, FitsBank, Within, InTolerance;
    hide Total, SumOver, FitsAround;
    var b := s.banks[g.banks[0]];
    LeftAloneIsUnmatched(s, b.id);
    forall id | id in g.ledgers ensures id in s.ledgers && !Named(s, id) && FitsAround(b, s.ledgers[id], s.cfg) {
      NamedIsClaimed(s, id);
      FittingAround(b, s.ledgers[id], s.cfg);
    }
    forall i | 0 <= i < |g.ledgers| ensures g.ledgers[i] in s.ledgers {
      var id := g.ledgers[i];
      assert id in g.ledgers;
      assert id in s.ledgers;
    }
    LedgerTotalIsSum(g.ledgers, s.ledgers);
    WithinIsInTolerance(g.ledgerTotal, g.bankTotal, s.cfg.amountTolerancePct);
  }

  lemma OneLedgerRowEvidence(g: Group, s: Setting)
    requires ManyToOneEvidence(g, s)
    ensures RestsOnOneLedgerRow(g, s)
  {
    hide Distinct, SuggestionClaims, Named, FitsLedger, Within, InTolerance, Total, SumOver, FitsInto;
    hide InLedgerPeriod, SharesWithSeveral, Collects;
    var l := s.ledgers[g.ledgers[0]];
    CollectsExactlyWhen(l, s);
    NamedIsClaimed(s, l.id);
    forall id | id in g.banks ensures id in s.banks && FitsInto(l, s.banks[id], s) {
      FittingInto(l, s.banks[id], s);
    }
    BankTotalIsSum(g.banks, s.banks);
    WithinIsInTolerance(g.bankTotal, g.ledgerTotal, s.cfg.amountTolerancePct);
  }

  lemma PairEvidence(g: Group, s: Setting)
    requires TransferEvidence(g, s)
    ensures RestsOnAPair(g, s)
  {
  }

  lemma ConversionEvidence(g: Group, s: Setting)
    requires FxEvidence(g, s)
    ensures RestsOnAConversion(g, s)
  {
    hide UnmatchedBanks, SuggestionClaims, LeftAlone, Named;
    var b, l := s.banks[g.banks[0]], s.ledgers[g.ledgers[0]];
    LeftAloneIsUnmatched(s, b.id);
    NamedIsClaimed(s, l.id);
    AllowanceIsPercent(l.amount, s.cfg.fxTolerancePct);
  }

  /** Whatever its unordered queries return, every group an execution adds rests on its rows: who
      they belong to, when and which way they move money, what they share, and figures that agree
      within the configured percentage. */
  lemma NewGroupsRestOnTheirRows(groups: seq<Group>, s: Setting, c: Choices, g: Group)
    requires KeysUnique(groups) && Possible(groups, s, c)
    requires g in Execution(groups, s, c).0 && g !in groups
    ensures RestsOnItsRows(g, s)
  {
    hide Possible, Execution, KeysUnique, OneToManyEvidence, ManyToOneEvidence, TransferEvidence, FxEvidence;
    hide RestsOnOneBankRow, RestsOnOneLedgerRow, RestsOnAPair, RestsOnAConversion;
    ExecutionIsJustified(groups, s, c);
    assert Evidence(g, s);
    if OneToManyEvidence(g, s) {
      OneBankRowEvidence(g, s);
    }
    if ManyToOneEvidence(g, s) {
      OneLedgerRowEvidence(g, s);
    }
    if g.relation == InternalTransfer {
      PairEvidence(g, s);
    }
    if g.relation == FxMatch {
      ConversionEvidence(g, s);
    }
  }

  // ---------------------------------------------------------------- a turn groups what fits

  lemma {:induction false} SumOverParts(a: seq<Id>, b: seq<Id>, amount: Id -> int)
    ensures SumOver(a + b, amount) == SumOver(a, amount) + SumOver(b, amount)
  {
    if a == [] {
      assert a + b == b;
    } else {
      SumOverParts(a[1..], b, amount);
      assert (a + b)[1..] == a[1..] + b;
    }
  }

  lemma TakeOut(b: seq<Id>, j: nat, amount: Id -> int)
    requires j < |b|
    ensures SumOver(b, amount) == amount(b[j]) + SumOver(b[..j] + b[j + 1..], amount)
  {
    var tail := [b[j]] + b[j + 1..];
    assert b == b[..j] + tail && tail[1..] == b[j + 1..];
    SumOverParts(b[..j], tail, amount);
    SumOverParts(b[..j], b[j + 1..], amount);
  }

  lemma TakenOut(b: seq<Id>, j: nat)
    requires j < |b|
    ensures multiset(b[..j] + b[j + 1..]) == multiset(b) - multiset{b[j]}
  {
    assert b == b[..j] + ([b[j]] + b[j + 1..]);
    assert multiset(b) == multiset(b[..j]) + (multiset{b[j]} + multiset(b[j + 1..]));
  }

  /** Two listings of the same ids have one sum. */
  lemma {:induction false} SumForgetsOrder(a: seq<Id>, b: seq<Id>, amount: Id -> int)
    requires multiset(a) == multiset(b)
    ensures SumOver(a, amount) == SumOver(b, amount)
  {
    SameLength(a, b);
    if a != [] {
      hide SumOver;
      assert a[0] in multiset(a);
      var j :| 0 <= j < |b| && b[j] == a[0];
      var rest := b[..j] + b[j + 1..];
      RestsAgree(a, b, j);
      SumForgetsOrder(a[1..], rest, amount);
      TakeOut(a, 0, amount);
      TakeOut(b, j, amount);
      assert a[..0] + a[1..] == a[1..];
    }
  }

  lemma RestsAgree(a: seq<Id>, b: seq<Id>, j: nat)
    requires multiset(a) == multiset(b) && a != [] && j < |b| && b[j] == a[0]
    ensures multiset(a[1..]) == multiset(b[..j] + b[j + 1..])
  {
    TakenOut(a, 0);
    TakenOut(b, j);
    assert a[..0] + a[1..] == a[1..];
  }

  lemma SameLength(a: seq<Id>, b: seq<Id>)
    requires multiset(a) == multiset(b)
    ensures |a| == |b|
  {
    assert |multiset(a)| == |a| && |multiset(b)| == |b|;
  }

  lemma DistinctListingsAgree(a: seq<Id>, b: seq<Id>)
    requires Distinct(a) && Distinct(b) && forall id :: id in a <==> id in b
    ensures multiset(a) == multiset(b)
  {
    forall id ensures multiset(a)[id] == multiset(b)[id] {
      DistinctCountsOnce(a, id);
      DistinctCountsOnce(b, id);
    }
  }

  lemma {:induction false} DistinctCountsOnce(a: seq<Id>, id: Id)
    requires Distinct(a)
    ensures multiset(a)[id] == if id in a then 1 else 0
  {
    if a != [] {
      DistinctCountsOnce(a[1..], id);
      assert a == [a[0]] + a[1..];
    }
  }

  /** The ledger rows on offer around a bank row, no more than the search takes, in any order. */
  ghost predicate AllAround(fitting: seq<Id>, b: BankRow, s: Setting, taken: set<Id>) {
    && Distinct(fitting) && |fitting| <= s.cfg.maxCandidates
    && forall id :: id in fitting <==> id in s.ledgers && id !in taken && FitsAround(b, s.ledgers[id], s.cfg)
  }

  ghost predicate AllInto(fitting: seq<Id>, l: LedgerRow, s: Setting, taken: set<Id>) {
    && Distinct(fitting) && |fitting| <= s.cfg.maxCandidates
    && forall id :: id in fitting <==> id in s.banks && id !in taken && FitsInto(l, s.banks[id], s)
  }

  lemma CandidatesAreAllAround(fitting: seq<Id>, b: BankRow, s: Setting, taken: set<Id>)
    requires AllAround(fitting, b, s, taken)
    ensures var rows := LedgerCandidates(b, s.ledgers, s.cfg, taken);
            && |rows| == |fitting| && multiset(LedgerIds(rows)) == multiset(fitting)
            && Total(rows, LedgerAmount()) == SumOver(fitting, InLedger(s.ledgers))
  {
    hide FitsBank, FitsAround, SumOver, Total, InOrder;
    var pool := LedgerPool(b, s.ledgers, s.cfg, taken);
    GroupExclusivity.LedgerListing(pool, s.ledgers);
    var rows := InOrder(pool, LedgerKey());
    var ids := LedgerIds(rows);
    forall id ensures id in ids <==> id in fitting {
      if id in s.ledgers {
        FittingAround(b, s.ledgers[id], s.cfg);
        assert s.ledgers[id] in Elements(rows) <==> s.ledgers[id] in rows;
      }
      if id in fitting {
        var i :| 0 <= i < |rows| && rows[i] == s.ledgers[id];
        assert ids[i] == id;
      }
      if id in ids {
        var i :| 0 <= i < |ids| && ids[i] == id;
        assert rows[i] in rows && rows[i].id == id;
      }
    }
    DistinctListingsAgree(ids, fitting);
    SameLength(ids, fitting);
    LedgerRowsAreListed(rows, s);
    SumForgetsOrder(ids, fitting, InLedger(s.ledgers));
  }

  lemma LedgerRowsAreListed(rows: seq<LedgerRow>, s: Setting)
    requires forall l | l in rows :: l in s.ledgers.Values
    ensures Total(rows, LedgerAmount()) == SumOver(LedgerIds(rows), InLedger(s.ledgers))
  {
    var ids := LedgerIds(rows);
    forall i | 0 <= i < |ids| ensures ids[i] in s.ledgers && s.ledgers[ids[i]] == rows[i] {
      assert rows[i] in rows;
    }
    LedgerTotalIsSum(ids, s.ledgers);
    assert LedgerRows(ids, s.ledgers) == rows;
  }

  /** When all the ledger rows on offer around a bank row, two or more, agree with it, its turn ends
      with their group stored; when there is one or none, nothing is stored. */
  lemma OneBankRowTurn(p: Progress, s: Setting, b: BankRow, base: set<Id>, fitting: seq<Id>)
    requires AllAround(fitting, b, s, base + p.found.ledgers)
    ensures |fitting| < 2 ==> OneToManyTurn(p, s, b, base) == p
    ensures |fitting| >= 2
            && InTolerance(SumOver(fitting, InLedger(s.ledgers)) as real, b.amount, s.cfg.amountTolerancePct)
            ==> exists g :: g in OneToManyTurn(p, s, b, base).groups
                            && g.run == s.run && g.relation == (if b.batch then Batch else OneToMany)
                            && multiset(g.banks) == multiset{b.id} && multiset(g.ledgers) == multiset(fitting)
  {
    hide LedgerCandidates, AllAround, Alternates, SumOver, Total, Within, InTolerance;
    CandidatesAreAllAround(fitting, b, s, base + p.found.ledgers);
    var rows := LedgerCandidates(b, s.ledgers, s.cfg, base + p.found.ledgers);
    WithinIsInTolerance(Total(rows, LedgerAmount()), b.amount, s.cfg.amountTolerancePct);
    StoredByProposing(p, LedgerGroup(s.run, b, Pending, rows));
  }

  lemma StoredByProposing(p: Progress, g: Group)
    ensures exists h :: h in Propose(p, g).groups && SameKey(h, g)
  {
    if !Known(p.groups, g) {
      assert Propose(p, g).groups[|p.groups|] == g;
      assert SameKey(g, g);
    }
  }

  lemma CandidatesAreAllInto(fitting: seq<Id>, l: LedgerRow, s: Setting, taken: set<Id>)
    requires AllInto(fitting, l, s, taken)
    ensures var rows := BankCandidates(l, s, taken);
            && |rows| == |fitting| && multiset(BankIds(rows)) == multiset(fitting)
            && Total(rows, BankAmount()) == SumOver(fitting, AtBank(s.banks))
  {
    hide FitsLedger, FitsInto, SumOver, Total, InOrder;
    var pool := BankPool(l, s, taken);
    GroupExclusivity.BankListing(pool, s.banks);
    var rows := InOrder(pool, OneToOne.BankKey());
    var ids := BankIds(rows);
    forall id ensures id in ids <==> id in fitting {
      if id in s.banks {
        FittingInto(l, s.banks[id], s);
        assert s.banks[id] in Elements(rows) <==> s.banks[id] in rows;
      }
      if id in fitting {
        var i :| 0 <= i < |rows| && rows[i] == s.banks[id];
        assert ids[i] == id;
      }
      if id in ids {
        var i :| 0 <= i < |ids| && ids[i] == id;
        assert rows[i] in rows && rows[i].id == id;
      }
    }
    DistinctListingsAgree(ids, fitting);
    SameLength(ids, fitting);
    BankRowsAreListed(rows, s);
    SumForgetsOrder(ids, fitting, AtBank(s.banks));
  }

  lemma BankRowsAreListed(rows: seq<BankRow>, s: Setting)
    requires forall b | b in rows :: b in s.banks.Values
    ensures Total(rows, BankAmount()) == SumOver(BankIds(rows), AtBank(s.banks))
  {
    var ids := BankIds(rows);
    forall i | 0 <= i < |ids| ensures ids[i] in s.banks && s.banks[ids[i]] == rows[i] {
      assert rows[i] in rows;
    }
    BankTotalIsSum(ids, s.banks);
    assert BankRows(ids, s.banks) == rows;
  }

  /** The same around a ledger row. */
  lemma OneLedgerRowTurn(p: Progress, s: Setting, l: LedgerRow, base: set<Id>, fitting: seq<Id>)
    requires AllInto(fitting, l, s, base + p.found.banks)
    ensures |fitting| < 2 ==> ManyToOneTurn(p, s, l, base) == p
    ensures |fitting| >= 2 && InTolerance(SumOver(fitting, AtBank(s.banks)) as real, l.amount, s.cfg.amountTolerancePct)
            ==> exists g :: g in ManyToOneTurn(p, s, l, base).groups
                            && g.run == s.run && g.relation in {ManyToOne, Batch}
                            && multiset(g.banks) == multiset(fitting) && multiset(g.ledgers) == multiset{l.id}
  {
    hide BankCandidates, AllInto, Alternates, SumOver, Total, Within, InTolerance;
    CandidatesAreAllInto(fitting, l, s, base + p.found.banks);
    var rows := BankCandidates(l, s, base + p.found.banks);
    WithinIsInTolerance(Total(rows, BankAmount()), l.amount, s.cfg.amountTolerancePct);
    if rows != [] {
      StoredByProposing(p, BankGroup(s.run, l, Pending, rows[0], rows));
    }
  }
}
