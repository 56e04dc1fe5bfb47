/** Rows and the order a query returns them in.

    A query without ORDER BY may return its rows in any order; a query with ORDER BY on a
    key that separates the rows has exactly one answer. */
module RowOrder {

  /** Keys are compared left to right, as ORDER BY and Python tuples are. */
  type Key = (int, int, int)

  predicate Before(a: Key, b: Key) {
    a.0 < b.0 || (a.0 == b.0 && (a.1 < b.1 || (a.1 == b.1 && a.2 < b.2)))
  }

  predicate Ascending<T>(rows: seq<T>, key: T -> Key) {
    forall i, j | 0 <= i < j < |rows| :: Before(key(rows[i]), key(rows[j]))
  }

  /** No two rows of the set share a key. */
  ghost predicate Separates<T(!new)>(s: set<T>, key: T -> Key) {
    forall x, y | x in s && y in s && key(x) == key(y) :: x == y
  }

  function Elements<T>(rows: seq<T>): set<T> {
    set x | x in rows
  }

  ghost predicate IsLeast<T(!new)>(least: T, s: set<T>, key: T -> Key) {
    least in s && forall x | x in s - {least} :: Before(key(least), key(x))
  }

  lemma {:induction false} LeastExists<T(!new)>(s: set<T>, key: T -> Key)
    requires s != {} && Separates(s, key)
    ensures exists least :: IsLeast(least, s, key)
  {
    var x :| x in s;
    var rest := s - {x};
    if rest == {} {
      assert s == {x};
      assert IsLeast(x, s, key);
    } else {
      LeastExists(rest, key);
      var m :| IsLeast(m, rest, key);
      assert IsLeast(if Before(key(x), key(m)) then x else m, s, key);
    }
  }

  lemma ElementsOfCons<T>(x: T, rows: seq<T>)
    ensures Elements([x] + rows) == {x} + Elements(rows)
  {
  }

  /** The rows of `s` in ascending key order: what ORDER BY returns. */
  ghost function InOrder<T(!new)>(s: set<T>, key: T -> Key): (rows: seq<T>)
    requires Separates(s, key)
    ensures Elements(rows) == s && |rows| == |s|
  {
    if s == {} then []
    else
      LeastExists(s, key);
      var least :| IsLeast(least, s, key);
      ElementsOfCons(least, InOrder(s - {least}, key));
      [least] + InOrder(s - {least}, key)
  }

  lemma {:induction false} InOrderAscends<T(!new)>(s: set<T>, key: T -> Key)
    requires Separates(s, key)
    ensures Ascending(InOrder(s, key), key)
  {
    if s != {} {
      LeastExists(s, key);
      var rows := InOrder(s, key);
      var least := rows[0];
      assert rows == [least] + InOrder(s - {least}, key);
      InOrderAscends(s - {least}, key);
      forall j | 0 < j < |rows| ensures Before(key(least), key(rows[j])) {
        assert rows[j] in Elements(InOrder(s - {least}, key));
      }
    }
  }

  lemma ListedOnce<T(!new)>(s: set<T>, key: T -> Key)
    requires Separates(s, key)
    ensures var rows := InOrder(s, key);
            && (forall x | x in rows :: x in s)
            && forall i, j | 0 <= i < j < |rows| :: rows[i] != rows[j]
  {
    var rows := InOrder(s, key);
    InOrderAscends(s, key);
    forall x | x in rows ensures x in s {
      assert x in Elements(rows);
    }
    forall i, j | 0 <= i < j < |rows| ensures rows[i] != rows[j] {
      assert Before(key(rows[i]), key(rows[j]));
    }
  }

  /** Two ascending listings of the same rows are the same listing. */
  lemma {:induction false} OneAscendingListing<T>(a: seq<T>, b: seq<T>, key: T -> Key)
    requires Ascending(a, key) && Ascending(b, key)
    requires Elements(a) == Elements(b)
    ensures a == b
  {
    assert a != [] ==> a[0] in Elements(a);
    assert b != [] ==> b[0] in Elements(b);
    if a != [] && b != [] {
      assert a[0] in Elements(b) && b[0] in Elements(a);
      assert a[0] == b[0];
      forall x ensures x in a[1..] <==> x in b[1..] {
        assert x in Elements(a) <==> x in Elements(b);
        assert a == [a[0]] + a[1..] && b == [b[0]] + b[1..];
      }
      OneAscendingListing(a[1..], b[1..], key);
      assert a == [a[0]] + a[1..] && b == [b[0]] + b[1..];
    }
  }

  lemma ListedAlone<T(!new)>(x: T, key: T -> Key)
    ensures Separates({x}, key) && InOrder({x}, key) == [x]
  {
    var rows := InOrder({x}, key);
    assert rows[0] in Elements(rows);
  }

  lemma ListedTwo<T(!new)>(x: T, y: T, key: T -> Key)
    requires Before(key(x), key(y))
    ensures Separates({x, y}, key) && InOrder({x, y}, key) == [x, y]
  {
    InOrderAscends({x, y}, key);
    assert Elements([x, y]) == {x, y};
    OneAscendingListing(InOrder({x, y}, key), [x, y], key);
  }

  /** Stable insertion sort, standing for the library sort. */
  function SortBy<T>(rows: seq<T>, key: T -> Key): (sorted: seq<T>)
    ensures multiset(sorted) == multiset(rows)
    ensures |sorted| == |rows|
  {
    if rows == [] then []
    else
      assert rows == rows[..|rows| - 1] + [rows[|rows| - 1]];
      InsertBy(SortBy(rows[..|rows| - 1], key), rows[|rows| - 1], key)
  }

  function InsertBy<T>(rows: seq<T>, row: T, key: T -> Key): (r: seq<T>)
    ensures multiset(r) == multiset(rows) + multiset{row}
    ensures |r| == |rows| + 1
  {
    if rows == [] then [row]
    else if Before(key(row), key(rows[0])) then [row] + rows
    else
      assert rows == [rows[0]] + rows[1..];
      [rows[0]] + InsertBy(rows[1..], row, key)
  }

  lemma {:induction false} InsertKeepsOrder<T(!new)>(rows: seq<T>, row: T, key: T -> Key)
    requires Ascending(rows, key)
    requires forall x | x in rows :: key(x) != key(row)
    ensures Ascending(InsertBy(rows, row, key), key)
  {
    if rows != [] {
      if Before(key(row), key(rows[0])) {
        forall x | x in rows ensures Before(key(row), key(x)) {
          var i :| 0 <= i < |rows| && rows[i] == x;
          assert i > 0 ==> Before(key(rows[0]), key(rows[i]));
        }
      } else {
        InsertKeepsOrder(rows[1..], row, key);
        var tail := InsertBy(rows[1..], row, key);
        forall x | x in tail ensures Before(key(rows[0]), key(x)) {
          assert x in multiset(tail);
        }
      }
    }
  }

  lemma {:induction false} SortOrders<T(!new)>(rows: seq<T>, key: T -> Key)
    requires forall i, j | 0 <= i < j < |rows| :: key(rows[i]) != key(rows[j])
    ensures Ascending(SortBy(rows, key), key)
  {
    if rows != [] {
      var front, last := rows[..|rows| - 1], rows[|rows| - 1];
      SortOrders(front, key);
      forall x | x in SortBy(front, key) ensures key(x) != key(last) {
        assert x in multiset(SortBy(front, key));
        assert x in multiset(front);
      }
      InsertKeepsOrder(SortBy(front, key), last, key);
    }
  }

  /** Sorting makes the order the rows arrived in irrelevant: every listing of the same
      rows sorts to the one ascending listing. */
  lemma SortForgetsArrivalOrder<T(!new)>(rows: seq<T>, key: T -> Key)
    requires |rows| == |Elements(rows)| && Separates(Elements(rows), key)
    ensures SortBy(rows, key) == InOrder(Elements(rows), key)
  {
    ListingHasNoRepeats(rows);
    forall i, j | 0 <= i < j < |rows| ensures key(rows[i]) != key(rows[j]) {
      assert rows[i] in Elements(rows) && rows[j] in Elements(rows);
    }
    SortOrders(rows, key);
    var sorted := SortBy(rows, key);
    forall x ensures x in Elements(sorted) <==> x in Elements(rows) {
      assert x in multiset(sorted) <==> x in multiset(rows);
    }
    InOrderAscends(Elements(rows), key);
    OneAscendingListing(sorted, InOrder(Elements(rows), key), key);
  }

  lemma {:induction false} ListingHasNoRepeats<T>(rows: seq<T>)
    requires |rows| == |Elements(rows)|
    ensures forall i, j | 0 <= i < j < |rows| :: rows[i] != rows[j]
  {
    if rows != [] {
      var front, last := rows[..|rows| - 1], rows[|rows| - 1];
      assert rows == front + [last];
      assert Elements(rows) == Elements(front) + {last};
      ElementsAtMostLength(front);
      assert last in front ==> Elements(rows) == Elements(front);
      assert |Elements(rows)| == |Elements(front)| + 1;
      ListingHasNoRepeats(front);
    }
  }

  lemma {:induction false} ElementsAtMostLength<T>(rows: seq<T>)
    ensures |Elements(rows)| <= |rows|
  {
    if rows != [] {
      var front := rows[..|rows| - 1];
      ElementsAtMostLength(front);
      assert rows == front + [rows[|rows| - 1]];
      assert Elements(rows) == Elements(front) + {rows[|rows| - 1]};
    }
  }

  /** A query without ORDER BY: the rows of `s`, each once, in some order. */
  method SelectUnordered<T(==)>(s: set<T>) returns (rows: seq<T>)
    ensures Elements(rows) == s && |rows| == |s|
  {
    rows := [];
    var left := s;
    while left != {}
      invariant Elements(rows) + left == s && Elements(rows) !! left
      invariant |rows| + |left| == |s|
    {
      var x :| x in left;
      assert Elements(rows + [x]) == Elements(rows) + {x};
      left := left - {x};
      rows := rows + [x];
    }
  }

  /** A query with ORDER BY on a separating key. */
  method SelectOrdered<T(==, !new)>(s: set<T>, key: T -> Key) returns (rows: seq<T>)
    requires Separates(s, key)
    ensures rows == InOrder(s, key)
  {
    var found := SelectUnordered(s);
    SortForgetsArrivalOrder(found, key);
    rows := SortBy(found, key);
  }
}
