/** Stage 5D: groups of several bank rows against one ledger row, several ledger rows against
    one bank row, the two legs of an internal transfer, and pairs in different currencies.

    Claims are threaded through the phases and, by way of the stored groups, across runs. */
module AdvancedMatching {
  import opened RowOrder
  import opened GroupSearch
  import opened ReconciliationModel
  import OneToOne = OneToOneMatching

  datatype Relation = OneToMany | ManyToOne | Batch | InternalTransfer | FxMatch
  datatype GroupStatus = Pending | Ambiguous | Accepted | Rejected

  datatype Group = Group(
    run: Id, relation: Relation, status: GroupStatus, banks: seq<Id>, ledgers: seq<Id>,
    bankTotal: int, ledgerTotal: int, currency: Id)

  /** What one execution reads and does not change.  `convert` is the bank amount in the
      ledger row's currency, None when there is no authoritative rate. */
  datatype Setting = Setting(
    run: Id, scope: Scope, banks: BankTable, ledgers: LedgerTable, suggestions: seq<OneToOne.Suggestion>,
    cfg: Config, convert: (BankRow, LedgerRow) -> Option<real>)

  /** The counters and claims of one phase. */
  datatype Found = Found(matches: int, ambiguous: int, ledgers: set<Id>, banks: set<Id>)

  datatype Progress = Progress(groups: seq<Group>, found: Found)

  function Begin(groups: seq<Group>): Progress {
    Progress(groups, Found(0, 0, {}, {}))
  }

  // ---------------------------------------------------------------- storing a group once

  predicate SameKey(g: Group, h: Group) {
    g.run == h.run && g.relation == h.relation
    && multiset(g.banks) == multiset(h.banks) && multiset(g.ledgers) == multiset(h.ledgers)
  }

  predicate Known(groups: seq<Group>, g: Group) {
    exists h | h in groups :: SameKey(h, g)
  }

  function Persisted(groups: seq<Group>, g: Group): seq<Group> {
    if Known(groups, g) then groups else groups + [g]
  }

  function PersistedAll(groups: seq<Group>, more: seq<Group>): seq<Group> {
    if more == [] then groups else Persisted(PersistedAll(groups, more[..|more| - 1]), more[|more| - 1])
  }

  /** A proposed group claims its members, if it is new. */
  function Propose(p: Progress, g: Group): Progress {
    if Known(p.groups, g) then p
    else Progress(p.groups + [g],
                  Found(p.found.matches + 1, p.found.ambiguous,
                        p.found.ledgers + Elements(g.ledgers), p.found.banks + Elements(g.banks)))
  }

  /** Competing groups are all stored and claim nothing. */
  function StoreRivals(p: Progress, rivals: seq<Group>): Progress {
    var after := PersistedAll(p.groups, rivals);
    Progress(after, p.found.(ambiguous := p.found.ambiguous + if |after| > |p.groups| then 1 else 0))
  }

  predicate GroupLive(g: Group) {
    g.status == Pending || g.status == Accepted
  }

  function ClaimedLedgers(groups: seq<Group>, ledgers: LedgerTable, entity: Id): set<Id> {
    set g, id | g in groups && GroupLive(g) && id in g.ledgers && id in ledgers && ledgers[id].entity == entity :: id
  }

  function ClaimedBanks(groups: seq<Group>, banks: BankTable, entity: Id): set<Id> {
    set g, id | g in groups && GroupLive(g) && id in g.banks && id in banks && banks[id].entity == entity :: id
  }

  // ---------------------------------------------------------------- shared evidence

  predicate SharesReference(b: BankRow, l: LedgerRow) {
    b.refs * l.refs != {}
  }

  function RelationFor(b: BankRow, cardinality: Relation): Relation {
    if b.batch then Batch else cardinality
  }

  function BankAmount(): BankRow -> int { (b: BankRow) => b.amount }
  function LedgerAmount(): LedgerRow -> int { (l: LedgerRow) => l.amount }
  function LedgerKey(): LedgerRow -> Key { (l: LedgerRow) => (l.date, l.id, 0) }

  function FirstRows<T>(rows: seq<T>, limit: nat): seq<T> {
    if |rows| <= limit then rows else rows[..limit]
  }

  function BankIds(rows: seq<BankRow>): (ids: seq<Id>)
    ensures |ids| == |rows| && forall i | 0 <= i < |rows| :: ids[i] == rows[i].id
  {
    seq(|rows|, i requires 0 <= i < |rows| => rows[i].id)
  }

  function LedgerIds(rows: seq<LedgerRow>): (ids: seq<Id>)
    ensures |ids| == |rows| && forall i | 0 <= i < |rows| :: ids[i] == rows[i].id
  {
    seq(|rows|, i requires 0 <= i < |rows| => rows[i].id)
  }

  // ---------------------------------------------------------------- one bank row, several ledger rows

  predicate FitsBank(b: BankRow, l: LedgerRow, cfg: Config) {
    && l.entity == b.entity
    && l.account == b.account
    && l.currency == b.currency
    && l.direction == CompatibleDirection(b.entry)
    && l.posted
    && DatesWithin(b.date, l.date, cfg.dateToleranceDays)
    && SharesReference(b, l)
  }

  function LedgerPool(b: BankRow, ledgers: LedgerTable, cfg: Config, claimed: set<Id>): set<LedgerRow> {
    set l | l in ledgers.Values && FitsBank(b, l, cfg) && l.id !in claimed
  }

  ghost function LedgerCandidates(b: BankRow, ledgers: LedgerTable, cfg: Config, claimed: set<Id>): seq<LedgerRow> {
    FirstRows(InOrder(LedgerPool(b, ledgers, cfg, claimed), LedgerKey()), cfg.maxCandidates)
  }

  function LedgerGroup(run: Id, b: BankRow, status: GroupStatus, rows: seq<LedgerRow>): Group {
    Group(run, RelationFor(b, OneToMany), status, [b.id], LedgerIds(rows), b.amount, Total(rows, LedgerAmount()),
        b.currency)
  }

  function LedgerRivals(run: Id, b: BankRow, alternates: seq<seq<LedgerRow>>): (rivals: seq<Group>)
    ensures |rivals| == |alternates| && forall i | 0 <= i < |rivals| ::
            rivals[i] == LedgerGroup(run, b, Ambiguous, alternates[i])
  {
    seq(|alternates|, i requires 0 <= i < |alternates| => LedgerGroup(run, b, Ambiguous, alternates[i]))
  }

  function LedgerAnswer(p: Progress, run: Id, b: BankRow, answer: Search<LedgerRow>): Progress {
    match answer
    case Accept(rows) => Propose(p, LedgerGroup(run, b, Pending, rows))
    case Compete(alternates) => StoreRivals(p, LedgerRivals(run, b, alternates))
    case NoGrouping => p
  }

  ghost function OneToManyTurn(p: Progress, s: Setting, b: BankRow, base: set<Id>): Progress {
    var candidates := LedgerCandidates(b, s.ledgers, s.cfg, base + p.found.ledgers);
    if |candidates| < 2 then p
    else LedgerAnswer(p, s.run, b,
        Answer(candidates, b.amount, Allowance(b.amount, s.cfg.amountTolerancePct), LedgerAmount()))
  }

  ghost function OneToManyRows(start: Progress, s: Setting, rows: seq<BankRow>, base: set<Id>): Progress {
    if rows == [] then start
    else OneToManyTurn(OneToManyRows(start, s, rows[..|rows| - 1], base), s, rows[|rows| - 1], base)
  }

  function ActiveRows(banks: BankTable, ids: set<Id>): set<BankRow> {
    set b | b in banks.Values && b.id in ids && b.active
  }

  ghost function OneToManyPhase(groups: seq<Group>, s: Setting, unmatched: set<Id>, base: set<Id>): Progress {
    if !s.cfg.advancedEnabled then Begin(groups)
    else OneToManyRows(Begin(groups), s, InOrder(ActiveRows(s.banks, unmatched), OneToOne.BankKey()), base)
  }

  // ---------------------------------------------------------------- several bank rows, one ledger row

  /** Non-empty references that at least two rows carry. */
  ghost predicate SharedReference(r: string, rows: set<BankRow>) {
    r != "" && exists a, b :: a in rows && b in rows && a != b && r in a.refs && r in b.refs
  }

  predicate InLedgerPeriod(l: LedgerRow, s: Setting) {
    && l.entity == s.scope.entity
    && l.account == s.scope.account
    && l.posted
    && s.scope.periodStart - s.cfg.dateToleranceDays <= l.date <= s.scope.periodEnd + s.cfg.dateToleranceDays
  }

  ghost predicate SharesWithSeveral(l: LedgerRow, rows: set<BankRow>) {
    exists r :: r in l.refs && SharedReference(r, rows)
  }

  ghost function GroupableLedgers(s: Setting, claimed: set<Id>): set<LedgerRow> {
    set l | l in s.ledgers.Values && InLedgerPeriod(l, s) && SharesWithSeveral(l, OneToOne.ScopeRows(s.banks, s.scope))
            && l.id !in claimed
  }

  /** Every ledger row that is not an inflow counts as matching bank debits. */
  function CompatibleEntry(direction: Direction): EntryType {
    if direction == Inflow then Credit else Debit
  }

  predicate FitsLedger(l: LedgerRow, b: BankRow, s: Setting) {
    && b.entity == s.scope.entity
    && b.account == s.scope.account
    && b.currency == l.currency
    && b.entry == CompatibleEntry(l.direction)
    && b.active
    && DatesWithin(l.date, b.date, s.cfg.dateToleranceDays)
    && SharesReference(b, l)
  }

  function BankPool(l: LedgerRow, s: Setting, grouped: set<Id>): set<BankRow> {
    set b | b in s.banks.Values && FitsLedger(l, b, s) && b.id !in grouped
  }

  ghost function BankCandidates(l: LedgerRow, s: Setting, grouped: set<Id>): seq<BankRow> {
    FirstRows(InOrder(BankPool(l, s, grouped), OneToOne.BankKey()), s.cfg.maxCandidates)
  }

  function BankGroup(run: Id, l: LedgerRow, status: GroupStatus, first: BankRow, rows: seq<BankRow>): Group {
    Group(run, RelationFor(first, ManyToOne), status, BankIds(rows), [l.id], Total(rows, BankAmount()), l.amount,
        l.currency)
  }

  function BankRivals(run: Id, l: LedgerRow, first: BankRow, alternates: seq<seq<BankRow>>): (rivals: seq<Group>)
    ensures |rivals| == |alternates| && forall i | 0 <= i < |rivals| ::
            rivals[i] == BankGroup(run, l, Ambiguous, first, alternates[i])
  {
    seq(|alternates|, i requires 0 <= i < |alternates| => BankGroup(run, l, Ambiguous, first, alternates[i]))
  }

  function BankAnswer(p: Progress, run: Id, l: LedgerRow, first: BankRow, answer: Search<BankRow>): Progress {
    match answer
    case Accept(rows) => Propose(p, BankGroup(run, l, Pending, if rows == [] then first else rows[0], rows))
    case Compete(alternates) => StoreRivals(p, BankRivals(run, l, first, alternates))
    case NoGrouping => p
  }

  ghost function ManyToOneTurn(p: Progress, s: Setting, l: LedgerRow, base: set<Id>): Progress {
    var candidates := BankCandidates(l, s, base + p.found.banks);
    if |candidates| < 2 then p
    else BankAnswer(p, s.run, l, candidates[0],
                    Answer(candidates, l.amount, Allowance(l.amount, s.cfg.amountTolerancePct), BankAmount()))
  }

  ghost function ManyToOneRows(start: Progress, s: Setting, rows: seq<LedgerRow>, base: set<Id>): Progress {
    if rows == [] then start
    else ManyToOneTurn(ManyToOneRows(start, s, rows[..|rows| - 1], base), s, rows[|rows| - 1], base)
  }

  ghost function ManyToOnePhase(groups: seq<Group>, s: Setting, claimed: set<Id>, grouped: set<Id>): Progress {
    if !s.cfg.advancedEnabled then Begin(groups)
    else ManyToOneRows(Begin(groups), s, InOrder(GroupableLedgers(s, claimed), LedgerKey()), grouped)
  }

  // ---------------------------------------------------------------- internal transfers

  function TransferGroup(run: Id, primary: LedgerRow, partner: LedgerRow): Group {
    Group(run, InternalTransfer, Pending, [], [primary.id, partner.id], primary.amount, partner.amount,
        primary.currency)
  }

  function Primaries(ledgers: LedgerTable, matched: set<Id>): set<LedgerRow> {
    set l | l in ledgers.Values && l.id in matched && l.transferPair.Some?
  }

  function Partners(ledgers: LedgerTable, primary: LedgerRow): set<LedgerRow> {
    set l | l in ledgers.Values && l.transferPair == primary.transferPair && l.id != primary.id
  }

  /** The query for the other leg has no ORDER BY: any partner may come back. */
  predicate PartnerOf(ledgers: LedgerTable, primary: LedgerRow, partner: Option<LedgerRow>) {
    match partner
    case Some(q) => q in Partners(ledgers, primary)
    case None => Partners(ledgers, primary) == {}
  }

  function TransferTurn(p: Progress, s: Setting, primary: LedgerRow, partner: Option<LedgerRow>): Progress {
    if partner.None? || partner.value.entity != s.scope.entity then p
    else
      var g := TransferGroup(s.run, primary, partner.value);
      if Known(p.groups, g) then p
      else Progress(p.groups + [g], p.found.(matches := p.found.matches + 1))
  }

  function TransferRows(
    start: Progress, s: Setting, primaries: seq<LedgerRow>, partners: seq<Option<LedgerRow>>): Progress
    requires |primaries| == |partners|
  {
    if primaries == [] then start
    else TransferTurn(TransferRows(start, s, primaries[..|primaries| - 1], partners[..|partners| - 1]), s,
                      primaries[|primaries| - 1], partners[|partners| - 1])
  }

  ghost predicate PossibleTransfers(
    s: Setting, matched: set<Id>, primaries: seq<LedgerRow>, partners: seq<Option<LedgerRow>>)
  {
    && Elements(primaries) == Primaries(s.ledgers, matched)
    && |primaries| == |Primaries(s.ledgers, matched)| == |partners|
    && forall i | 0 <= i < |partners| :: PartnerOf(s.ledgers, primaries[i], partners[i])
  }

  // ---------------------------------------------------------------- different currencies

  predicate CrossCurrency(b: BankRow, l: LedgerRow, cfg: Config) {
    && l.entity == b.entity
    && l.account == b.account
    && l.currency != b.currency
    && l.direction == CompatibleDirection(b.entry)
    && l.posted
    && DatesWithin(b.date, l.date, cfg.dateToleranceDays)
  }

  function FxPool(b: BankRow, s: Setting, claimed: set<Id>): set<LedgerRow> {
    set l | l in s.ledgers.Values && CrossCurrency(b, l, s.cfg) && l.id !in claimed
  }

  predicate FxAgrees(b: BankRow, l: LedgerRow, s: Setting) {
    match s.convert(b, l)
    case None => false
    case Some(converted) =>
      var allowed := Allowance(l.amount, s.cfg.fxTolerancePct);
      l.amount as real - allowed <= converted <= l.amount as real + allowed
  }

  /** The first agreeing row of an unordered query: any agreeing row, None if there is none. */
  predicate FxChoice(b: BankRow, s: Setting, claimed: set<Id>, choice: Option<LedgerRow>) {
    match choice
    case Some(l) => l in FxPool(b, s, claimed) && FxAgrees(b, l, s)
    case None => forall l | l in FxPool(b, s, claimed) :: !FxAgrees(b, l, s)
  }

  function FxGroup(run: Id, b: BankRow, l: LedgerRow): Group {
    Group(run, FxMatch, Pending, [b.id], [l.id], b.amount, l.amount, l.currency)
  }

  function FxTurn(p: Progress, s: Setting, b: BankRow, choice: Option<LedgerRow>): Progress {
    match choice
    case Some(l) => Propose(p, FxGroup(s.run, b, l))
    case None => p
  }

  function FxRows(start: Progress, s: Setting, rows: seq<BankRow>, choices: seq<Option<LedgerRow>>): Progress
    requires |rows| == |choices|
  {
    if rows == [] then start
    else FxTurn(FxRows(start, s, rows[..|rows| - 1], choices[..|choices| - 1]), s, rows[|rows| - 1],
        choices[|choices| - 1])
  }

  ghost predicate PossibleFx(
    start: Progress, s: Setting, rows: seq<BankRow>, choices: seq<Option<LedgerRow>>, base: set<Id>)
    requires |rows| == |choices|
  {
    rows == [] ||
    (&& PossibleFx(start, s, rows[..|rows| - 1], choices[..|choices| - 1], base)
     && FxChoice(rows[|rows| - 1], s,
                 base + FxRows(start, s, rows[..|rows| - 1], choices[..|choices| - 1]).found.ledgers,
                 choices[|choices| - 1]))
  }

  ghost function FxBankRows(s: Setting, unmatched: set<Id>): seq<BankRow> {
    if !s.cfg.advancedEnabled then [] else InOrder(ActiveRows(s.banks, unmatched), OneToOne.BankKey())
  }

  // ---------------------------------------------------------------- a whole execution

  /** What the unordered queries of an execution happened to return. */
  datatype Choices = Choices(
    primaries: seq<LedgerRow>, partners: seq<Option<LedgerRow>>, conversions: seq<Option<LedgerRow>>)

  function UnmatchedBanks(s: Setting): set<Id> {
    set x | x in s.suggestions && x.run == s.run && x.ledger.None? :: x.bank
  }

  function MatchedLedgers(s: Setting): set<Id> {
    set x | x in s.suggestions && x.run == s.run && x.ledger.Some? :: x.ledger.value
  }

  /** Where an execution stands after its first two phases. */
  datatype Grouped = Grouped(groups: seq<Group>, ledgers: set<Id>, banks: set<Id>, matches: int, ambiguous: int)

  function SuggestionClaims(s: Setting): set<Id> {
    OneToOne.AlreadyClaimed(s.suggestions, s.ledgers, s.scope.entity)
  }

  ghost function TwoPhases(groups: seq<Group>, s: Setting): Grouped {
    var ledgers := ClaimedLedgers(groups, s.ledgers, s.scope.entity);
    var banks := ClaimedBanks(groups, s.banks, s.scope.entity);
    var first := OneToManyPhase(groups, s, UnmatchedBanks(s) - banks, SuggestionClaims(s) + ledgers);
    var second := ManyToOnePhase(
      first.groups, s, SuggestionClaims(s) + (ledgers + first.found.ledgers), banks + first.found.banks);
    Grouped(second.groups,
            ledgers + first.found.ledgers + second.found.ledgers, banks + first.found.banks + second.found.banks,
            first.found.matches + second.found.matches, first.found.ambiguous + second.found.ambiguous)
  }

  /** The bank rows left for the last phase. */
  ghost function LeftForFx(groups: seq<Group>, s: Setting): seq<BankRow> {
    FxBankRows(s, UnmatchedBanks(s) - ClaimedBanks(groups, s.banks, s.scope.entity) - TwoPhases(groups, s).banks)
  }

  ghost predicate Possible(groups: seq<Group>, s: Setting, c: Choices) {
    && PossibleTransfers(s, MatchedLedgers(s), c.primaries, c.partners)
    && |c.conversions| == |LeftForFx(groups, s)|
    && PossibleFx(Begin(TransferRows(Begin(TwoPhases(groups, s).groups), s, c.primaries, c.partners).groups), s,
                  LeftForFx(groups, s), c.conversions, SuggestionClaims(s) + TwoPhases(groups, s).ledgers)
  }

  /** The groups and the two counters after a whole execution. */
  ghost function Execution(groups: seq<Group>, s: Setting, c: Choices): (seq<Group>, int, int)
    requires Possible(groups, s, c)
  {
    var two := TwoPhases(groups, s);
    var transfers := TransferRows(Begin(two.groups), s, c.primaries, c.partners);
    var fx := FxRows(Begin(transfers.groups), s, LeftForFx(groups, s), c.conversions);
    (fx.groups, two.matches + transfers.found.matches + fx.found.matches,
     two.ambiguous + transfers.found.ambiguous + fx.found.ambiguous)
  }
}
