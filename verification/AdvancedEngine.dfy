/** The Stage 5D engine as it runs: loops over rows, threading claims and storing groups.
    Each phase is proved to do what `AdvancedMatching` says, for whatever rows the unordered
    queries return. */
module AdvancedEngine {
  import opened RowOrder
  import opened GroupSearch
  import opened ReconciliationModel
  import opened AdvancedMatching
  import OneToOne = OneToOneMatching

  class Engine {
    const s: Setting
    var groups: seq<Group>

    constructor (s: Setting, groups: seq<Group>)
      ensures this.s == s && this.groups == groups
    {
      this.s, this.groups := s, groups;
    }

    /** Stores the group unless this run already has one with its key. */
    method PersistGroup(g: Group) returns (created: bool)
      modifies this`groups
      ensures groups == Persisted(old(groups), g) && created == !Known(old(groups), g)
    {
      if Known(groups, g) {
        return false;
      }
      groups := groups + [g];
      created := true;
    }

    method PersistRivals(rivals: seq<Group>) returns (anyNew: bool)
      modifies this`groups
      ensures groups == PersistedAll(old(groups), rivals) && anyNew == (|groups| > |old(groups)|)
    {
      anyNew := false;
      for i := 0 to |rivals|
        invariant groups == PersistedAll(old(groups), rivals[..i])
        invariant |groups| >= |old(groups)| && anyNew == (|groups| > |old(groups)|)
      {
        var created := PersistGroup(rivals[i]);
        anyNew := anyNew || created;
        assert rivals[..i + 1][..i] == rivals[..i];
      }
      assert rivals[..|rivals|] == rivals;
    }

    method ReferenceMatchedLedgerCandidates(b: BankRow, excluded: set<Id>) returns (candidates: seq<LedgerRow>)
      ensures candidates == LedgerCandidates(b, s.ledgers, s.cfg, excluded)
    {
      var found := SelectOrdered(LedgerPool(b, s.ledgers, s.cfg, excluded), LedgerKey());
      candidates := if |found| <= s.cfg.maxCandidates then found else found[..s.cfg.maxCandidates];
    }

    method OneToManyRow(b: BankRow, claimed: set<Id>, found: Found, ghost base: set<Id>) returns (after: Found)
      requires claimed == base + found.ledgers
      modifies this`groups
      ensures Progress(groups, after) == OneToManyTurn(Progress(old(groups), found), s, b, base)
    {
      hide PersistedAll, Total, Answer, LedgerCandidates;
      after := found;
      var candidates := ReferenceMatchedLedgerCandidates(b, claimed);
      if |candidates| < 2 {
        return;
      }
      var answer :=
          FindSummingGrouping(candidates, b.amount, Allowance(b.amount, s.cfg.amountTolerancePct), LedgerAmount());
      match answer
      case Accept(rows) =>
        var ledgerSum := SumOf(rows, LedgerAmount());
        var created := PersistGroup(
          Group(s.run, RelationFor(b, OneToMany), Pending, [b.id], LedgerIds(rows), b.amount, ledgerSum, b.currency));
        if created {
          after := Found(found.matches + 1, found.ambiguous, found.ledgers + Elements(LedgerIds(rows)),
              found.banks + {b.id});
          assert Elements([b.id]) == {b.id};
        }
      case Compete(alternates) =>
        var anyNew := PersistRivals(LedgerRivals(s.run, b, alternates));
        if anyNew {
          after := found.(ambiguous := found.ambiguous + 1);
        }
      case NoGrouping =>
    }

    method DetectOneToManyGroups(unmatched: set<Id>, excluded: set<Id>) returns (found: Found)
      modifies this`groups
      ensures Progress(groups, found) == OneToManyPhase(old(groups), s, unmatched, SuggestionClaims(s) + excluded)
    {
      hide OneToManyTurn, SuggestionClaims;
      found := Found(0, 0, {}, {});
      if !s.cfg.advancedEnabled {
        return;
      }
      var bankRows := SelectOrdered(ActiveRows(s.banks, unmatched), OneToOne.BankKey());
      ghost var start := Begin(groups);
      ghost var base := SuggestionClaims(s) + excluded;
      for i := 0 to |bankRows|
        invariant Progress(groups, found) == OneToManyRows(start, s, bankRows[..i], base)
      {
        found := OneToManyRow(bankRows[i], SuggestionClaims(s) + excluded + found.ledgers, found, base);
        assert bankRows[..i + 1][..i] == bankRows[..i];
      }
      assert bankRows[..|bankRows|] == bankRows;
    }

    method ReferenceMatchedBankCandidates(l: LedgerRow, grouped: set<Id>) returns (candidates: seq<BankRow>)
      ensures candidates == BankCandidates(l, s, grouped)
    {
      var found := SelectOrdered(BankPool(l, s, grouped), OneToOne.BankKey());
      candidates := if |found| <= s.cfg.maxCandidates then found else found[..s.cfg.maxCandidates];
    }

    method ManyToOneRow(l: LedgerRow, grouped: set<Id>, found: Found, ghost base: set<Id>) returns (after: Found)
      requires grouped == base + found.banks
      modifies this`groups
      ensures Progress(groups, after) == ManyToOneTurn(Progress(old(groups), found), s, l, base)
    {
      hide PersistedAll, Total, Answer, BankCandidates;
      after := found;
      var candidates := ReferenceMatchedBankCandidates(l, grouped);
      if |candidates| < 2 {
        return;
      }
      var answer :=
          FindSummingGrouping(candidates, l.amount, Allowance(l.amount, s.cfg.amountTolerancePct), BankAmount());
      match answer
      case Accept(rows) =>
        var bankSum := SumOf(rows, BankAmount());
        AcceptedIsNotEmpty(candidates, l.amount, Allowance(l.amount, s.cfg.amountTolerancePct), BankAmount(), rows);
        var created := PersistGroup(
          Group(s.run, RelationFor(rows[0], ManyToOne), Pending, BankIds(rows), [l.id], bankSum, l.amount, l.currency));
        if created {
          after := Found(found.matches + 1, found.ambiguous, found.ledgers + {l.id},
              found.banks + Elements(BankIds(rows)));
          assert Elements([l.id]) == {l.id};
        }
      case Compete(alternates) =>
        var anyNew := PersistRivals(BankRivals(s.run, l, candidates[0], alternates));
        if anyNew {
          after := found.(ambiguous := found.ambiguous + 1);
        }
      case NoGrouping =>
    }

    /** How many of the rows carry each non-empty reference. */
    static method CountReferences(rows: seq<BankRow>) returns (counts: map<string, nat>)
      ensures forall r :: r in counts <==> CarriedBy(rows, r) > 0 && r != ""
      ensures forall r | r in counts :: counts[r] == CarriedBy(rows, r)
    {
      counts := map[];
      for i := 0 to |rows|
        invariant forall r :: r in counts <==> CarriedBy(rows[..i], r) > 0 && r != ""
        invariant forall r | r in counts :: counts[r] == CarriedBy(rows[..i], r)
      {
        var values := rows[i].refs - {""};
        assert rows[..i + 1][..i] == rows[..i];
        counts := map r | r in counts.Keys + values ::
          (if r in counts then counts[r] else 0) + (if r in values then 1 else 0);
      }
      assert rows[..|rows|] == rows;
    }

    /** The ledger rows worth trying: those sharing a reference that two bank rows share. */
    method SelectGroupableLedgers(claimed: set<Id>) returns (rows: seq<LedgerRow>)
      ensures rows == InOrder(GroupableLedgers(s, claimed), LedgerKey())
    {
      var inScope := SelectUnordered(OneToOne.ScopeRows(s.banks, s.scope));
      var counts := CountReferences(inScope);
      var sharedRefs := set r | r in counts && counts[r] >= 2;
      var found := set l | l in s.ledgers.Values && InLedgerPeriod(l, s) && l.refs * sharedRefs != {}
          && l.id !in claimed;
      assert found == GroupableLedgers(s, claimed) by {
        forall l: LedgerRow ensures l.refs * sharedRefs != {} <==> SharesWithSeveral(l, Elements(inScope)) {
          SharedMeansTwice(l, inScope, counts, sharedRefs);
        }
      }
      rows := SelectOrdered(found, LedgerKey());
    }

    method GroupAroundLedgers(rows: seq<LedgerRow>, excludedBanks: set<Id>) returns (found: Found)
      modifies this`groups
      ensures Progress(groups, found) == ManyToOneRows(Begin(old(groups)), s, rows, excludedBanks)
    {
      hide ManyToOneTurn;
      found := Found(0, 0, {}, {});
      ghost var start := Begin(groups);
      for i := 0 to |rows|
        invariant Progress(groups, found) == ManyToOneRows(start, s, rows[..i], excludedBanks)
      {
        found := ManyToOneRow(rows[i], excludedBanks + found.banks, found, excludedBanks);
        assert rows[..i + 1][..i] == rows[..i];
      }
      assert rows[..|rows|] == rows;
    }

    method DetectManyToOneGroups(excludedLedgers: set<Id>, excludedBanks: set<Id>) returns (found: Found)
      modifies this`groups
      ensures Progress(groups, found)
              == ManyToOnePhase(old(groups), s, SuggestionClaims(s) + excludedLedgers, excludedBanks)
    {
      hide ManyToOneRows, SuggestionClaims, GroupableLedgers, InOrder;
      if !s.cfg.advancedEnabled {
        return Found(0, 0, {}, {});
      }
      var rows := SelectGroupableLedgers(SuggestionClaims(s) + excludedLedgers);
      found := GroupAroundLedgers(rows, excludedBanks);
    }

    method FirstPartner(primary: LedgerRow) returns (partner: Option<LedgerRow>)
      ensures PartnerOf(s.ledgers, primary, partner)
    {
      var rows := SelectUnordered(Partners(s.ledgers, primary));
      if rows == [] {
        partner := None;
      } else {
        assert rows[0] in Elements(rows);
        partner := Some(rows[0]);
      }
    }

    method DetectInternalTransfers(matched: set<Id>)
      returns (found: Found, ghost primaries: seq<LedgerRow>, ghost partners: seq<Option<LedgerRow>>)
      modifies this`groups
      ensures PossibleTransfers(s, matched, primaries, partners)
      ensures Progress(groups, found) == TransferRows(Begin(old(groups)), s, primaries, partners)
    {
      hide Partners, Primaries, TransferGroup;
      found := Found(0, 0, {}, {});
      ghost var start := Begin(groups);
      var rows := SelectUnordered(Primaries(s.ledgers, matched));
      primaries, partners := rows, [];
      for i := 0 to |rows|
        invariant |partners| == i
        invariant forall k | 0 <= k < i :: PartnerOf(s.ledgers, rows[k], partners[k])
        invariant Progress(groups, found) == TransferRows(start, s, rows[..i], partners)
      {
        ghost var p := Progress(groups, found);
        var pair := FirstPartner(rows[i]);
        if pair.Some? && pair.value.entity == s.scope.entity {
          var created := PersistGroup(TransferGroup(s.run, rows[i], pair.value));
          if created {
            found := found.(matches := found.matches + 1);
          }
        }
        assert Progress(groups, found) == TransferTurn(p, s, rows[i], pair);
        assert rows[..i + 1][..i] == rows[..i] && (partners + [pair])[..i] == partners;
        partners := partners + [pair];
      }
      assert rows[..|rows|] == rows;
    }

    /** The first row of an arbitrary listing whose converted amount agrees. */
    method FirstAgreeing(b: BankRow, claimed: set<Id>) returns (choice: Option<LedgerRow>)
      ensures FxChoice(b, s, claimed, choice)
    {
      var candidates := SelectUnordered(FxPool(b, s, claimed));
      for i := 0 to |candidates|
        invariant forall k | 0 <= k < i :: !FxAgrees(b, candidates[k], s)
      {
        assert candidates[i] in Elements(candidates);
        if FxAgrees(b, candidates[i], s) {
          return Some(candidates[i]);
        }
      }
      choice := None;
      forall l | l in FxPool(b, s, claimed) ensures !FxAgrees(b, l, s) {
        assert l in Elements(candidates);
      }
    }

    method FxRow(b: BankRow, claimed: set<Id>, found: Found) returns (after: Found, choice: Option<LedgerRow>)
      modifies this`groups
      ensures FxChoice(b, s, claimed, choice)
      ensures Progress(groups, after) == FxTurn(Progress(old(groups), found), s, b, choice)
    {
      hide FxAgrees, FxPool;
      after := found;
      choice := FirstAgreeing(b, claimed);
      if choice.Some? {
        var created := PersistGroup(FxGroup(s.run, b, choice.value));
        if created {
          assert Elements([choice.value.id]) == {choice.value.id} && Elements([b.id]) == {b.id};
          after := Found(found.matches + 1, found.ambiguous, found.ledgers + {choice.value.id}, found.banks + {b.id});
        }
      }
    }

    method ConvertRows(bankRows: seq<BankRow>, base: set<Id>)
      returns (found: Found, ghost choices: seq<Option<LedgerRow>>)
      modifies this`groups
      ensures |choices| == |bankRows| && PossibleFx(Begin(old(groups)), s, bankRows, choices, base)
      ensures Progress(groups, found) == FxRows(Begin(old(groups)), s, bankRows, choices)
    {
      hide FxChoice, FxTurn;
      found, choices := Found(0, 0, {}, {}), [];
      ghost var start := Begin(groups);
      for i := 0 to |bankRows|
        invariant |choices| == i && PossibleFx(start, s, bankRows[..i], choices, base)
        invariant Progress(groups, found) == FxRows(start, s, bankRows[..i], choices)
      {
        var after, choice := FxRow(bankRows[i], base + found.ledgers, found);
        assert bankRows[..i + 1][..i] == bankRows[..i] && (choices + [choice])[..i] == choices;
        found, choices := after, choices + [choice];
      }
      assert bankRows[..|bankRows|] == bankRows;
    }

    method DetectFxMatches(unmatched: set<Id>, excludedLedgers: set<Id>)
      returns (found: Found, ghost choices: seq<Option<LedgerRow>>)
      modifies this`groups
      ensures |choices| == |FxBankRows(s, unmatched)|
      ensures PossibleFx(Begin(old(groups)), s, FxBankRows(s, unmatched), choices,
              SuggestionClaims(s) + excludedLedgers)
      ensures Progress(groups, found) == FxRows(Begin(old(groups)), s, FxBankRows(s, unmatched), choices)
    {
      var bankRows := [];
      if s.cfg.advancedEnabled {
        bankRows := SelectOrdered(ActiveRows(s.banks, unmatched), OneToOne.BankKey());
      }
      hide PossibleFx, FxRows, SuggestionClaims;
      found, choices := ConvertRows(bankRows, SuggestionClaims(s) + excludedLedgers);
    }

    /** The whole Stage 5D execution. */
    method RunAdvancedMatchingForRun() returns (matches: int, ambiguous: int, ghost c: Choices)
      modifies this`groups
      ensures Possible(old(groups), s, c)
      ensures (groups, matches, ambiguous) == Execution(old(groups), s, c)
    {
      hide OneToManyPhase, ManyToOnePhase, PossibleTransfers, PossibleFx, FxRows, TransferRows, FxBankRows;
      var baseLedgers := ClaimedLedgers(groups, s.ledgers, s.scope.entity);
      var baseBanks := ClaimedBanks(groups, s.banks, s.scope.entity);
      var unmatched := UnmatchedBanks(s) - baseBanks;
      var first := DetectOneToManyGroups(unmatched, baseLedgers);
      var second := DetectManyToOneGroups(baseLedgers + first.ledgers, baseBanks + first.banks);
      var transfers, primaries, partners := DetectInternalTransfers(MatchedLedgers(s));
      var usedLedgers := baseLedgers + first.ledgers + second.ledgers;
      var usedBanks := baseBanks + first.banks + second.banks;
      var fx, conversions := DetectFxMatches(unmatched - usedBanks, usedLedgers);
      c := Choices(primaries, partners, conversions);
      matches := first.matches + second.matches + transfers.matches + fx.matches;
      ambiguous := first.ambiguous + second.ambiguous + transfers.ambiguous + fx.ambiguous;
    }
  }

  function CarriedBy(rows: seq<BankRow>, r: string): nat {
    if rows == [] then 0 else CarriedBy(rows[..|rows| - 1], r) + if r in rows[|rows| - 1].refs then 1 else 0
  }

  lemma {:induction false} CarriedIsPositive(rows: seq<BankRow>, r: string)
    ensures CarriedBy(rows, r) > 0 <==> exists i :: 0 <= i < |rows| && r in rows[i].refs
  {
    if rows != [] {
      CarriedIsPositive(rows[..|rows| - 1], r);
    }
  }

  lemma {:induction false} CarriedTwice(rows: seq<BankRow>, r: string)
    ensures CarriedBy(rows, r) >= 2 <==> exists i, j :: 0 <= i < j < |rows| && r in rows[i].refs && r in rows[j].refs
  {
    if rows != [] {
      var front := rows[..|rows| - 1];
      CarriedTwice(front, r);
      CarriedIsPositive(front, r);
      if i, j :| 0 <= i < j < |rows| && r in rows[i].refs && r in rows[j].refs {
        assert r in front[i].refs;
        assert j < |front| ==> r in front[j].refs;
      }
    }
  }

  /** A reference counted at least twice is one that two different rows carry. */
  lemma CountedTwiceIsShared(rows: seq<BankRow>, r: string)
    requires |rows| == |Elements(rows)| && r != ""
    ensures CarriedBy(rows, r) >= 2 <==> SharedReference(r, Elements(rows))
  {
    ListingHasNoRepeats(rows);
    CarriedTwice(rows, r);
    if SharedReference(r, Elements(rows)) {
      var a, b :| a in Elements(rows) && b in Elements(rows) && a != b && r in a.refs && r in b.refs;
      var i :| 0 <= i < |rows| && rows[i] == a;
      var j :| 0 <= j < |rows| && rows[j] == b;
      assert i < j || j < i;
    }
    if i, j :| 0 <= i < j < |rows| && r in rows[i].refs && r in rows[j].refs {
      assert rows[i] in Elements(rows) && rows[j] in Elements(rows);
    }
  }

  lemma SharedMeansTwice(l: LedgerRow, rows: seq<BankRow>, counts: map<string, nat>, sharedRefs: set<string>)
    requires |rows| == |Elements(rows)|
    requires forall r :: r in counts <==> CarriedBy(rows, r) > 0 && r != ""
    requires forall r | r in counts :: counts[r] == CarriedBy(rows, r)
    requires forall r :: r in sharedRefs <==> r in counts && counts[r] >= 2
    ensures l.refs * sharedRefs != {} <==> SharesWithSeveral(l, Elements(rows))
  {
    hide SharedReference, CarriedBy;
    forall r ensures r in sharedRefs <==> SharedReference(r, Elements(rows)) {
      if r == "" {
        EmptyIsNotShared(Elements(rows));
      } else {
        CountedTwiceIsShared(rows, r);
      }
    }
    if r :| r in l.refs && SharedReference(r, Elements(rows)) {
      assert r in l.refs * sharedRefs;
    }
  }

  lemma EmptyIsNotShared(rows: set<BankRow>)
    ensures !SharedReference("", rows)
  {
  }

  lemma AcceptedIsNotEmpty<T>(rows: seq<T>, target: int, allowed: real, amount: T -> int, accepted: seq<T>)
    requires |rows| >= 2 && Answer(rows, target, allowed, amount) == Accept(accepted)
    ensures accepted != []
  {
    SearchIsSound(rows, target, allowed, amount, accepted);
  }
}
