/** Bank rows, ledger rows and the one-to-one score between them.

    Identifiers are UUIDs, modelled by their numeric value (their fixed-width text sorts the
    same way).  Dates are day ordinals, amounts are cents.  References and narration tokens
    are given already normalised. */
module ReconciliationModel {

  type Id = int

  datatype Option<+T> = None | Some(value: T) {
    function UnwrapOr(default: T): T {
      if Some? then value else default
    }
  }

  ghost predicate Distinct<T(!new)>(s: seq<T>) {
    forall i, j | 0 <= i < j < |s| :: s[i] != s[j]
  }

  datatype EntryType = Credit | Debit
  datatype Direction = Inflow | Outflow | Transfer | NonCash

  datatype BankRow = BankRow(
    id: Id, entity: Id, account: Id, currency: Id, entry: EntryType, date: int, amount: int,
    refs: set<string>, tokens: set<string>, batch: bool, active: bool)

  datatype LedgerRow = LedgerRow(
    id: Id, entity: Id, account: Id, currency: Id, direction: Direction, date: int, amount: int,
    refs: set<string>, texts: seq<set<string>>, posted: bool, transferPair: Option<Id>)

  /** The configured limits of a run; an unconfigured run has zero tolerances. */
  datatype Config = Config(
    dateToleranceDays: int, amountTolerancePct: real, highValueThreshold: Option<int>,
    advancedEnabled: bool, maxCandidates: nat, fxTolerancePct: real)

  datatype Scope = Scope(entity: Id, account: Id, periodStart: int, periodEnd: int)

  function CompatibleDirection(entry: EntryType): Direction {
    match entry
    case Credit => Inflow
    case Debit => Outflow
  }

  // ---------------------------------------------------------------- tables

  type BankTable = m: map<Id, BankRow> | forall k | k in m :: m[k].id == k witness map[]
  type LedgerTable = m: map<Id, LedgerRow> | forall k | k in m :: m[k].id == k witness map[]

  ghost predicate DifferentBanks(rows: seq<BankRow>) {
    forall i, j | 0 <= i < j < |rows| :: rows[i].id != rows[j].id
  }

  ghost predicate DifferentLedgers(rows: seq<LedgerRow>) {
    forall i, j | 0 <= i < j < |rows| :: rows[i].id != rows[j].id
  }

  // ---------------------------------------------------------------- candidate generation

  predicate DatesWithin(a: int, b: int, days: int) {
    a - days <= b <= a + days
  }

  /** The filters of candidate generation; `claimed` ledger rows are never offered. */
  predicate IsCandidate(b: BankRow, l: LedgerRow, cfg: Config, claimed: set<Id>) {
    var allowed := b.amount as real * (cfg.amountTolerancePct / 100.0);
    && l.entity == b.entity
    && l.account == b.account
    && l.currency == b.currency
    && l.direction == CompatibleDirection(b.entry)
    && l.posted
    && DatesWithin(b.date, l.date, cfg.dateToleranceDays)
    && b.amount as real - allowed <= l.amount as real <= b.amount as real + allowed
    && l.id !in claimed
  }

  function Candidates(b: BankRow, ledgers: LedgerTable, cfg: Config, claimed: set<Id>): LedgerTable {
    map k | k in ledgers && IsCandidate(b, ledgers[k], cfg, claimed) :: ledgers[k]
  }

  // ---------------------------------------------------------------- scoring

  const AUTO_MATCH_THRESHOLD := 70
  const REVIEW_THRESHOLD := 40

  datatype Score = Score(amount: int, date: int, reference: int, narration: int) {
    function Total(): int { amount + date + reference + 10 + narration }
    predicate IsExact() { amount == 40 && date == 15 && reference == 30 }
  }

  predicate OccursAt(text: string, part: string, i: int) {
    0 <= i <= |text| - |part| && text[i..i + |part|] == part
  }

  predicate Contains(text: string, part: string) {
    exists i | 0 <= i <= |text| :: OccursAt(text, part, i)
  }

  predicate Overlaps(a: set<string>, b: set<string>) {
    exists x, y | x in a && y in b :: x != "" && y != "" && (Contains(y, x) || Contains(x, y))
  }

  function ReferencePoints(bank: set<string>, ledger: set<string>): int {
    if bank == {} || ledger == {} then 0
    else if bank * ledger != {} then 30
    else if Overlaps(bank, ledger) then 15
    else 0
  }

  function NarrationPoints(tokens: set<string>, texts: seq<set<string>>): int {
    if tokens != {} && exists t | t in texts :: t != {} && 10 * |tokens * t| >= 6 * |tokens| then 5 else 0
  }

  /** None when the directions are incompatible: an outright rejection, not a low score. */
  function ScoreCandidate(b: BankRow, l: LedgerRow): Option<Score> {
    if l.direction != CompatibleDirection(b.entry) then None
    else Some(Score(
                if b.amount == l.amount then 40 else 20,
                if b.date == l.date then 15 else 5,
                ReferencePoints(b.refs, l.refs),
                NarrationPoints(b.tokens, l.texts)))
  }

  /** Worth a suggestion at all. */
  predicate Rated(b: BankRow, l: LedgerRow) {
    ScoreCandidate(b, l).Some? && ScoreCandidate(b, l).value.Total() >= REVIEW_THRESHOLD
  }

  function TotalScore(b: BankRow, l: LedgerRow): int {
    match ScoreCandidate(b, l)
    case Some(s) => s.Total()
    case None => 0
  }

  /** What the two thresholds mean in terms of the evidence: a candidate is discarded only
      when nothing beyond the direction agrees, and a candidate whose amount differs is never
      auto-tier without an exact reference. */
  lemma ThresholdsInTermsOfEvidence(b: BankRow, l: LedgerRow)
    requires ScoreCandidate(b, l).Some?
    ensures var s := ScoreCandidate(b, l).value;
            var someReference := Overlaps(b.refs, l.refs) || b.refs * l.refs != {};
            var sameReference := b.refs * l.refs != {};
            var narration := s.narration > 0;
            && (s.Total() >= REVIEW_THRESHOLD
                <==> b.amount == l.amount || b.date == l.date || someReference || narration)
            && (s.Total() >= AUTO_MATCH_THRESHOLD <==>
                || (b.amount == l.amount && (someReference || (b.date == l.date && narration)))
                || (sameReference && (b.date == l.date || narration)))
  {
    if b.refs * l.refs == {} && Overlaps(b.refs, l.refs) {
      assert b.refs != {} && l.refs != {};
    }
  }
}
