/** The bounded subset search behind every one-to-many and many-to-one group: the full
    candidate list, or the list with exactly one member left out. */
module GroupSearch {

  datatype Search<T> =
    | Accept(rows: seq<T>)
    | Compete(alternates: seq<seq<T>>)
    | NoGrouping

  function Total<T>(rows: seq<T>, amount: T -> int): int {
    if rows == [] then 0 else Total(rows[..|rows| - 1], amount) + amount(rows[|rows| - 1])
  }

  function Distance(a: int, b: int): nat {
    if a < b then b - a else a - b
  }

  /** The allowed difference: amounts are in cents, the tolerance a percentage of the target. */
  function Allowance(target: int, tolerancePct: real): real {
    target as real * (tolerancePct / 100.0)
  }

  predicate Within(total: int, target: int, allowed: real) {
    Distance(total, target) as real <= allowed
  }

  function DropAt<T>(rows: seq<T>, i: nat): seq<T>
    requires i < |rows|
  {
    rows[..i] + rows[i + 1..]
  }

  /** Leaving out position `i` keeps at least two rows and lands within tolerance. */
  predicate GoodDrop<T>(rows: seq<T>, i: nat, target: int, allowed: real, amount: T -> int)
    requires i < |rows|
  {
    |rows| >= 3 && Within(Total(DropAt(rows, i), amount), target, allowed)
  }

  /** The subsets left by the removals that work at positions below `n`, in position order. */
  function Alternates<T>(rows: seq<T>, n: nat, target: int, allowed: real, amount: T -> int): seq<seq<T>>
    requires n <= |rows|
  {
    if n == 0 then []
    else
      var front := Alternates(rows, n - 1, target, allowed, amount);
      if GoodDrop(rows, n - 1, target, allowed, amount) then front + [DropAt(rows, n - 1)] else front
  }

  /** What the search answers for one candidate list. */
  function Answer<T>(rows: seq<T>, target: int, allowed: real, amount: T -> int): Search<T> {
    var valid := Alternates(rows, |rows|, target, allowed, amount);
    if Within(Total(rows, amount), target, allowed) then Accept(rows)
    else if |valid| == 1 then Accept(valid[0])
    else if |valid| > 1 then Compete(valid)
    else NoGrouping
  }

  method SumOf<T>(rows: seq<T>, amount: T -> int) returns (total: int)
    ensures total == Total(rows, amount)
  {
    total := 0;
    for i := 0 to |rows|
      invariant total == Total(rows[..i], amount)
    {
      assert rows[..i + 1][..i] == rows[..i];
      total := total + amount(rows[i]);
    }
    assert rows[..|rows|] == rows;
  }

  method FindSummingGrouping<T>(rows: seq<T>, target: int, allowed: real, amount: T -> int)
    returns (result: Search<T>)
    ensures result == Answer(rows, target, allowed, amount)
  {
    var fullSum := SumOf(rows, amount);
    if Distance(fullSum, target) as real <= allowed {
      return Accept(rows);
    }
    var valid: seq<seq<T>> := [];
    for i := 0 to |rows|
      invariant valid == Alternates(rows, i, target, allowed, amount)
    {
      var subset := rows[..i] + rows[i + 1..];
      assert subset == DropAt(rows, i);
      if |subset| >= 2 {
        var subsetSum := SumOf(subset, amount);
        if Distance(subsetSum, target) as real <= allowed {
          valid := valid + [subset];
        }
      }
    }
    if |valid| == 1 {
      result := Accept(valid[0]);
    } else if |valid| > 1 {
      result := Compete(valid);
    } else {
      result := NoGrouping;
    }
  }

  lemma {:induction false} TotalOfParts<T>(a: seq<T>, b: seq<T>, amount: T -> int)
    ensures Total(a + b, amount) == Total(a, amount) + Total(b, amount)
  {
    if b == [] {
      assert a + b == a;
    } else {
      TotalOfParts(a, b[..|b| - 1], amount);
      assert (a + b)[..|a + b| - 1] == a + b[..|b| - 1];
    }
  }

  lemma TotalOfOne<T>(row: T, amount: T -> int)
    ensures Total([row], amount) == amount(row)
  {
    assert [row][..0] == [];
  }

  lemma TotalWithout<T>(rows: seq<T>, i: nat, amount: T -> int)
    requires i < |rows|
    ensures Total(DropAt(rows, i), amount) == Total(rows, amount) - amount(rows[i])
  {
    hide Total;
    TotalOfParts(rows[..i], rows[i + 1..], amount);
    TotalOfParts(rows[..i], [rows[i]], amount);
    TotalOfParts(rows[..i] + [rows[i]], rows[i + 1..], amount);
    TotalOfOne(rows[i], amount);
    assert rows == rows[..i] + [rows[i]] + rows[i + 1..];
  }

  /** An alternate is exactly what some working removal leaves. */
  lemma {:induction false} AlternatesAreGoodDrops<T>(
    rows: seq<T>, n: nat, target: int, allowed: real, amount: T -> int, k: nat)
    returns (i: nat)
    requires n <= |rows| && k < |Alternates(rows, n, target, allowed, amount)|
    ensures i < n && GoodDrop(rows, i, target, allowed, amount)
    ensures Alternates(rows, n, target, allowed, amount)[k] == DropAt(rows, i)
  {
    if k < |Alternates(rows, n - 1, target, allowed, amount)| {
      i := AlternatesAreGoodDrops(rows, n - 1, target, allowed, amount, k);
    } else {
      i := n - 1;
    }
  }

  /** Every working removal is among the alternates, after those of smaller position. */
  lemma {:induction false} GoodDropIsAlternate<T>(
    rows: seq<T>, n: nat, target: int, allowed: real, amount: T -> int, i: nat)
    returns (k: nat)
    requires i < n <= |rows| && GoodDrop(rows, i, target, allowed, amount)
    ensures k == |Alternates(rows, i, target, allowed, amount)| < |Alternates(rows, n, target, allowed, amount)|
    ensures Alternates(rows, n, target, allowed, amount)[k] == DropAt(rows, i)
    decreases n
  {
    k := |Alternates(rows, i, target, allowed, amount)|;
    if i < n - 1 {
      var _ := GoodDropIsAlternate(rows, n - 1, target, allowed, amount, i);
    }
  }

  /** Sound: whatever is offered, alone or in competition, is the full list or the list
      without one member, has at least two members and sums within tolerance. */
  lemma SearchIsSound<T>(rows: seq<T>, target: int, allowed: real, amount: T -> int, offered: seq<T>)
    requires |rows| >= 2
    requires var r := Answer(rows, target, allowed, amount);
             r == Accept(offered) || (r.Compete? && offered in r.alternates)
    ensures |offered| >= 2
    ensures Within(Total(offered, amount), target, allowed)
    ensures offered == rows || exists i: nat | i < |rows| :: offered == DropAt(rows, i)
  {
    var valid := Alternates(rows, |rows|, target, allowed, amount);
    if !Within(Total(rows, amount), target, allowed) {
      var k :| 0 <= k < |valid| && valid[k] == offered;
      var i := AlternatesAreGoodDrops(rows, |rows|, target, allowed, amount, k);
    }
  }

  /** Complete: nothing is offered exactly when neither the full list nor any list without
      one member (of two or more) is within tolerance. */
  lemma SearchIsComplete<T>(rows: seq<T>, target: int, allowed: real, amount: T -> int)
    ensures Answer(rows, target, allowed, amount).NoGrouping? <==>
            && !Within(Total(rows, amount), target, allowed)
            && forall i: nat | i < |rows| :: !GoodDrop(rows, i, target, allowed, amount)
  {
    if i: nat :| i < |rows| && GoodDrop(rows, i, target, allowed, amount) {
      var k := GoodDropIsAlternate(rows, |rows|, target, allowed, amount, i);
    } else if |Alternates(rows, |rows|, target, allowed, amount)| > 0 {
      var i := AlternatesAreGoodDrops(rows, |rows|, target, allowed, amount, 0);
      assert false;
    }
  }

  /** Never resolved by choice: when the full list misses, two different members whose
      removal works always end in competition, and both removals are among the rivals. */
  lemma TiesAreNeverResolved<T>(rows: seq<T>, target: int, allowed: real, amount: T -> int, i: nat, j: nat)
    requires i < j < |rows|
    requires !Within(Total(rows, amount), target, allowed)
    requires GoodDrop(rows, i, target, allowed, amount) && GoodDrop(rows, j, target, allowed, amount)
    ensures var r := Answer(rows, target, allowed, amount);
            r.Compete? && |r.alternates| >= 2 && DropAt(rows, i) in r.alternates && DropAt(rows, j) in r.alternates
  {
    var a := GoodDropIsAlternate(rows, j, target, allowed, amount, i);
    var a' := GoodDropIsAlternate(rows, |rows|, target, allowed, amount, i);
    var b := GoodDropIsAlternate(rows, |rows|, target, allowed, amount, j);
  }

  /** With zero tolerance a removal works exactly when it drops the surplus, so all rivals
      drop equal amounts. */
  lemma ZeroToleranceRivalsDropTheSurplus<T>(rows: seq<T>, target: int, amount: T -> int, i: nat)
    requires i < |rows| && |rows| >= 3
    ensures GoodDrop(rows, i, target, Allowance(target, 0.0), amount)
            <==> amount(rows[i]) == Total(rows, amount) - target
  {
    TotalWithout(rows, i, amount);
  }
}
