/** Exactly which scopes and tolerances let two executions side by side group the same row: the
    ledger side from ExecutionClashes, and the bank side, which reaches twice as far. */
module BankClashes {
  import opened ReconciliationModel
  import opened AdvancedMatching
  import opened GroupExclusivity
  import opened ReconciliationRuns
  import opened OverlappingExecutions
  import opened ExecutionClashes
  import OneToOne = OneToOneMatching
  import OneToOneProperties
  import Scene = BankClashScene

  // ---------------------------------------------------------------- the clash has no order

  lemma SharingIsMutual(before: seq<Group>, a: seq<Group>, b: seq<Group>, side: Side)
    requires NewShareNothing(before, a, b, side)
    ensures NewShareNothing(before, b, a, side)
  {
    hide Holds;
  }

  lemma ClashIsMutual(s: Scope, m: int, t: Scope, n: int, side: Side)
    requires GroupsCanClash(s, m, t, n, side)
    ensures GroupsCanClash(t, n, s, m, side)
  {
    hide After, Apply, Enabled, Exclusive, Merged, NewShareNothing, OneToOneProperties.FreshRun;
    var steps, fixed, e, f :| GroupsClashOver(steps, fixed, e, f, s, m, t, n, side);
    var st := After(steps, fixed);
    InvHolds(steps, fixed);
    StepKeepsInv(st, e, fixed);
    StepKeepsInv(st, f, fixed);
    ExecutionsExtend(st, e, fixed);
    ExecutionsExtend(st, f, fixed);
    var a, b := Apply(st, e, fixed).groups, Apply(st, f, fixed).groups;
    assert Exclusive(a, side) && Exclusive(b, side);
    MergedIsExclusiveExactlyWhen(st.groups, a, b, side);
    MergedIsExclusiveExactlyWhen(st.groups, b, a, side);
    if NewShareNothing(st.groups, b, a, side) {
      SharingIsMutual(st.groups, b, a, side);
    }
    assert GroupsClashOver(steps, fixed, f, e, t, n, s, m, side);
  }

  // ---------------------------------------------------------------- the rows both meet

  function Pair(s: Scope, day: int): set<BankRow> {
    {Scene.Large(s, day), Scene.Small(s, day)}
  }

  function Early(s: Scope, d: int): set<BankRow> {
    {Scene.Helper(s, 5, d, "A"), Scene.Helper(s, 6, d, "A")}
  }

  function Late(s: Scope, e: int): set<BankRow> {
    {Scene.Helper(s, 3, e, "B"), Scene.Helper(s, 4, e, "B")}
  }

  /** The pair on `day`, two rows of the second period, and two of the first if the pair is not
      in it. */
  function Payments(s: Scope, day: int, d: int, e: int): BankTable {
    if InPeriod(s, day) then
      map[1 := Scene.Large(s, day), 2 := Scene.Small(s, day),
          3 := Scene.Helper(s, 3, e, "B"), 4 := Scene.Helper(s, 4, e, "B")]
    else
      map[1 := Scene.Large(s, day), 2 := Scene.Small(s, day),
          3 := Scene.Helper(s, 3, e, "B"), 4 := Scene.Helper(s, 4, e, "B"),
          5 := Scene.Helper(s, 5, d, "A"), 6 := Scene.Helper(s, 6, d, "A")]
  }

  lemma PaymentsAre(s: Scope, day: int, d: int, e: int)
    ensures Payments(s, day, d, e).Values
            == Pair(s, day) + Late(s, e) + (if InPeriod(s, day) then {} else Early(s, d))
  {
    hide Scene.Large, Scene.Small, Scene.Helper, InPeriod;
    var banks := Payments(s, day, d, e);
    assert banks[1] in banks.Values && banks[2] in banks.Values && banks[3] in banks.Values && banks[4] in banks.Values;
    assert !InPeriod(s, day) ==> banks[5] in banks.Values && banks[6] in banks.Values;
  }

  /** One day that the first period alone has, one that the second alone has, and the pair's day,
      which the second does not have; each ledger row is near its period and near the pair. */
  predicate Placed(s: Scope, m: int, t: Scope, n: int, day: int, d: int, e: int, one: int, two: int) {
    && s.entity == t.entity && s.account == t.account
    && InPeriod(s, d) && !InPeriod(t, d) && InPeriod(t, e) && !InPeriod(s, e) && !InPeriod(t, day)
    && DatesWithin(one, day, m) && s.periodStart - m <= one <= s.periodEnd + m
    && DatesWithin(two, day, n) && t.periodStart - n <= two <= t.periodEnd + n
  }

  lemma OnlyTheseAreInScope(banks: BankTable, scope: Scope, inside: set<BankRow>, outside: set<BankRow>)
    requires banks.Values == inside + outside
    requires forall b | b in inside :: OneToOne.InScope(b, scope)
    requires forall b | b in outside :: !OneToOne.InScope(b, scope)
    ensures OneToOne.ScopeRows(banks, scope) == inside
  {
    hide OneToOne.InScope;
  }

  lemma WhereTheyAre(s: Scope, t: Scope, day: int, d: int, e: int)
    requires s.entity == t.entity && s.account == t.account
    ensures forall b | b in Pair(s, day) :: OneToOne.InScope(b, t) <==> InPeriod(t, day)
    ensures forall b | b in Early(s, d) :: OneToOne.InScope(b, t) <==> InPeriod(t, d)
    ensures forall b | b in Late(s, e) :: OneToOne.InScope(b, t) <==> InPeriod(t, e)
  {
  }

  lemma ScopesHoldTwo(s: Scope, m: int, t: Scope, n: int, day: int, d: int, e: int, one: int, two: int)
    requires Placed(s, m, t, n, day, d, e, one, two)
    ensures var banks := Payments(s, day, d, e);
            && OneToOne.ScopeRows(banks, t) == Late(s, e)
            && OneToOne.ScopeRows(banks, s) == if InPeriod(s, day) then Pair(s, day) else Early(s, d)
  {
    hide Pair, Early, Late, Payments, InPeriod, DatesWithin, OneToOne.InScope, OneToOne.ScopeRows;
    var banks, rest := Payments(s, day, d, e), if InPeriod(s, day) then {} else Early(s, d);
    PaymentsAre(s, day, d, e);
    WhereTheyAre(s, s, day, d, e);
    WhereTheyAre(s, t, day, d, e);
    OnlyTheseAreInScope(banks, t, Late(s, e), Pair(s, day) + rest);
    if InPeriod(s, day) {
      OnlyTheseAreInScope(banks, s, Pair(s, day), Late(s, e));
    } else {
      OnlyTheseAreInScope(banks, s, Early(s, d), Pair(s, day) + Late(s, e));
    }
  }

  lemma PaymentsAreAtHome(s: Scope, t: Scope, day: int, d: int, e: int)
    ensures AtHome(Payments(s, day, d, e), Places(s, t))
  {
    var banks := Payments(s, day, d, e);
    PaymentsAre(s, day, d, e);
    hide Payments;
    forall k | k in banks ensures banks[k].entity == s.entity {
      assert banks[k] in banks.Values;
    }
  }

  lemma PairIsThere(s: Scope, day: int, d: int, e: int)
    ensures var banks := Payments(s, day, d, e);
            && Scene.Large(s, day) in banks.Values && Scene.Small(s, day) in banks.Values
            && forall b | b in banks.Values && b.currency == 1 :: b == Scene.Large(s, day) || b == Scene.Small(s, day)
  {
    PaymentsAre(s, day, d, e);
    hide Payments, InPeriod;
  }

  lemma TheSums(s: Scope, one: int, two: int)
    ensures Scene.Sums(s, one, two).Values == {Scene.Sum(s, 11, one, {"A"}), Scene.Sum(s, 12, two, {"B", "C"})}
  {
    var ledgers := Scene.Sums(s, one, two);
    assert ledgers[11] in ledgers.Values && ledgers[12] in ledgers.Values;
  }

  /** The references: the pair shares "A" with the first ledger row, "B" and "C" with the second. */
  lemma References(s: Scope, day: int, one: int, two: int)
    ensures var l, k := Scene.Sum(s, 11, one, {"A"}), Scene.Sum(s, 12, two, {"B", "C"});
            && SharesReference(Scene.Large(s, day), l) && SharesReference(Scene.Small(s, day), l)
            && SharesReference(Scene.Large(s, day), k) && SharesReference(Scene.Small(s, day), k)
    ensures Scene.Large(s, day).refs * Scene.Small(s, day).refs == {"A"}
  {
    assert "A" in {"A", "B"} * {"A"} && "A" in {"A", "C"} * {"A"};
    assert "B" in {"A", "B"} * {"B", "C"} && "C" in {"A", "C"} * {"B", "C"};
    assert "B" != "C" && "A" != "B" && "A" != "C" by {
      assert "A"[0] == 'A' && "B"[0] == 'B' && "C"[0] == 'C';
    }
  }

  lemma SameRows(s: Scope, t: Scope, day: int, d: int, e: int, one: int, two: int)
    requires s.entity == t.entity && s.account == t.account
    ensures Scene.Sums(s, one, two) == Scene.Sums(t, one, two)
    ensures Scene.Large(s, day) == Scene.Large(t, day) && Scene.Small(s, day) == Scene.Small(t, day)
    ensures Scene.Sum(s, 12, two, {"B", "C"}) == Scene.Sum(t, 12, two, {"B", "C"})
  {
  }

  // ---------------------------------------------------------------- both executions

  lemma FirstMeets(s: Scope, m: int, t: Scope, n: int, day: int, d: int, e: int, one: int, two: int)
    returns (x: BankRow, y: BankRow)
    requires Placed(s, m, t, n, day, d, e, one, two)
    ensures Scene.Meets(s, Payments(s, day, d, e), Scene.Sums(s, one, two), m, x, y, day,
                        Scene.Sum(s, 11, one, {"A"}), Scene.Sum(s, 12, two, {"B", "C"}), "A")
  {
    hide Payments, Scene.Sums, SharesReference, DatesWithin;
    ScopesHoldTwo(s, m, t, n, day, d, e, one, two);
    PairIsThere(s, day, d, e);
    TheSums(s, one, two);
    References(s, day, one, two);
    if InPeriod(s, day) {
      x, y := Scene.Large(s, day), Scene.Small(s, day);
    } else {
      x, y := Scene.Helper(s, 5, d, "A"), Scene.Helper(s, 6, d, "A");
    }
  }

  lemma SecondMeets(s: Scope, m: int, t: Scope, n: int, day: int, d: int, e: int, one: int, two: int)
    returns (x: BankRow, y: BankRow)
    requires Placed(s, m, t, n, day, d, e, one, two)
    ensures Scene.Meets(t, Payments(s, day, d, e), Scene.Sums(t, one, two), n, x, y, day,
                        Scene.Sum(t, 12, two, {"B", "C"}), Scene.Sum(t, 11, one, {"A"}), "B")
  {
    hide Payments, Scene.Sums, SharesReference, DatesWithin;
    ScopesHoldTwo(s, m, t, n, day, d, e, one, two);
    PairIsThere(s, day, d, e);
    SameRows(s, t, day, d, e, one, two);
    TheSums(t, one, two);
    References(t, day, one, two);
    x, y := Scene.Helper(s, 3, e, "B"), Scene.Helper(s, 4, e, "B");
  }

  lemma TheyShareThePair(l: Id, k: Id, a: Id, b: Id)
    ensures !Exclusive(Merged([], [Scene.Together(a, l)], [Scene.Together(b, k)]), Banks)
  {
    var merged := Merged([], [Scene.Together(a, l)], [Scene.Together(b, k)]);
    assert Holds(merged, Banks, 0, 1) && Holds(merged, Banks, 1, 1);
  }

  lemma BothTakeThePair(s: Scope, m: int, t: Scope, n: int, day: int, d: int, e: int, one: int, two: int)
    requires Placed(s, m, t, n, day, d, e, one, two)
    ensures GroupsCanClash(s, m, t, n, Banks)
  {
    hide Enabled, Apply, AtHome, DatesWithin, InPeriod, Payments, Scene.Sums, Scene.Together, Scene.Meets, Exclusive;
    hide Scene.NothingFound, Scene.Nones, Scene.Large, Scene.Small, Merged;
    var fixed, banks, ledgers := Places(s, t), Payments(s, day, d, e), Scene.Sums(s, one, two);
    SameRows(s, t, day, d, e, one, two);
    PaymentsAreAtHome(s, t, day, d, e);
    var x, y := FirstMeets(s, m, t, n, day, d, e, one, two);
    var v, w := SecondMeets(s, m, t, n, day, d, e, one, two);
    var first, second := Scene.Run(1, banks, ledgers, m, Scene.Left(x)), Scene.Run(2, banks, ledgers, n, Scene.Left(v));
    var l, k := Scene.Sum(s, 11, one, {"A"}), Scene.Sum(t, 12, two, {"B", "C"});
    Scene.GroupingRun(1, s, banks, one, two, m, x, y, day, l, k, "A", fixed);
    Scene.GroupingRun(2, t, banks, one, two, n, v, w, day, k, Scene.Sum(t, 11, one, {"A"}), "B", fixed);
    assert After([], fixed) == State([], []);
    TheyShareThePair(11, 12, 1, 2);
    assert GroupsClashOver([], fixed, first, second, s, m, t, n, Banks);
  }

  // ---------------------------------------------------------------- exactly

  function Least(a: int, b: int): int { if a < b then a else b }

  /** One period before the other: the pair lies on the last day before the second period, or as
      far as the first reaches; when the second has no tolerance it may have to lie in it. */
  lemma EarlierMeetsLater(s: Scope, m: int, t: Scope, n: int)
    requires Proper(s) && Proper(t) && m >= 0 && n >= 0 && s.periodEnd < t.periodStart && Meet(s, 2 * m, t, 2 * n)
    ensures GroupsCanClash(s, m, t, n, Banks)
  {
    hide GroupsCanClash;
    var d, e := s.periodEnd, t.periodStart;
    if n == 0 && e <= d + 2 * m {
      BothTakeThePair(t, n, s, m, e, e, d, e, d + Least(m, e - d));
      ClashIsMutual(t, n, s, m, Banks);
    } else {
      var day := Least(d + 2 * m, e - 1);
      BothTakeThePair(s, m, t, n, day, d, e, d + Least(m, day - d), e - Least(n, e - day));
    }
  }

  /** Two first executions can put one row into two live groups exactly when the lock does not order
      them and their periods, each widened by what the side can reach, have a day in common. */
  lemma GroupsClashExactlyWhen(s: Scope, m: int, t: Scope, n: int, side: Side)
    requires Proper(s) && Proper(t) && m >= 0 && n >= 0
    ensures GroupsCanClash(s, m, t, n, side) <==> !LockOrders(s, t) && Meet(s, Reach(m, side), t, Reach(n, side))
  {
    hide GroupsCanClash, DatesWithin, InPeriod;
    if GroupsCanClash(s, m, t, n, side) {
      ApartGroupsCannotClash(s, m, t, n, side);
    }
    if !LockOrders(s, t) && Meet(s, Reach(m, side), t, Reach(n, side)) {
      if side == Ledgers || Meet(s, 0, t, 0) {
        var d, e, z := DaysThatMeet(s, m, t, n);
        BothGroup(s, m, t, n, d, e, z, side);
      } else if s.periodEnd < t.periodStart {
        EarlierMeetsLater(s, m, t, n);
      } else {
        EarlierMeetsLater(t, n, s, m);
        ClashIsMutual(t, n, s, m, Banks);
      }
    }
  }
}
