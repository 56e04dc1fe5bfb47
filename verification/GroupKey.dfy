/** The idempotency key of a match group: relationship type, sorted bank ids and sorted
    ledger ids in one string. */
module GroupKey {

  // ---------------------------------------------------------------- text order

  /** Code-point order, the order Python sorts strings in. */
  predicate AtMost(a: string, b: string) {
    a == "" || (b != "" && (a[0] < b[0] || (a[0] == b[0] && AtMost(a[1..], b[1..]))))
  }

  lemma {:induction false} AtMostIsTotal(a: string, b: string)
    ensures AtMost(a, b) || AtMost(b, a)
  {
    if a != "" && b != "" {
      AtMostIsTotal(a[1..], b[1..]);
    }
  }

  lemma {:induction false} AtMostIsAntisymmetric(a: string, b: string)
    requires AtMost(a, b) && AtMost(b, a)
    ensures a == b
  {
    if a != "" {
      AtMostIsAntisymmetric(a[1..], b[1..]);
      assert a == [a[0]] + a[1..] && b == [b[0]] + b[1..];
    }
  }

  lemma {:induction false} AtMostIsTransitive(a: string, b: string, c: string)
    requires AtMost(a, b) && AtMost(b, c)
    ensures AtMost(a, c)
  {
    if a != "" && a[0] == b[0] == c[0] {
      AtMostIsTransitive(a[1..], b[1..], c[1..]);
    }
  }

  // ---------------------------------------------------------------- sorting texts

  function Insert(texts: seq<string>, t: string): (r: seq<string>)
    ensures multiset(r) == multiset(texts) + multiset{t}
  {
    if texts == [] then [t]
    else if AtMost(t, texts[0]) then [t] + texts
    else
      assert texts == [texts[0]] + texts[1..];
      [texts[0]] + Insert(texts[1..], t)
  }

  function Sorted(texts: seq<string>): (r: seq<string>)
    ensures multiset(r) == multiset(texts)
  {
    if texts == [] then []
    else
      assert texts == [texts[0]] + texts[1..];
      Insert(Sorted(texts[1..]), texts[0])
  }

  predicate Ascends(texts: seq<string>) {
    forall i | 0 < i < |texts| :: AtMost(texts[i - 1], texts[i])
  }

  lemma {:induction false} InsertAscends(texts: seq<string>, t: string)
    requires Ascends(texts)
    ensures Ascends(Insert(texts, t))
    ensures texts != [] ==> Insert(texts, t)[0] in {texts[0], t}
  {
    if texts != [] {
      AtMostIsTotal(t, texts[0]);
      if !AtMost(t, texts[0]) {
        InsertAscends(texts[1..], t);
      }
    }
  }

  lemma {:induction false} SortedAscends(texts: seq<string>)
    ensures Ascends(Sorted(texts))
  {
    if texts != [] {
      SortedAscends(texts[1..]);
      InsertAscends(Sorted(texts[1..]), texts[0]);
    }
  }

  lemma {:induction false} FirstIsLeast(texts: seq<string>, t: string)
    requires Ascends(texts) && t in texts
    ensures AtMost(texts[0], t)
  {
    if t == texts[0] {
      AtMostIsTotal(t, t);
    } else {
      FirstIsLeast(texts[1..], t);
      AtMostIsTransitive(texts[0], texts[1], t);
    }
  }

  lemma Tail(texts: seq<string>)
    requires texts != []
    ensures texts == [texts[0]] + texts[1..]
    ensures multiset(texts[1..]) == multiset(texts) - multiset{texts[0]}
    ensures Ascends(texts) ==> Ascends(texts[1..])
  {
    assert texts == [texts[0]] + texts[1..];
    assert multiset(texts) == multiset{texts[0]} + multiset(texts[1..]);
  }

  /** A multiset of texts has one ascending listing. */
  lemma {:induction false} OneAscent(a: seq<string>, b: seq<string>)
    requires Ascends(a) && Ascends(b) && multiset(a) == multiset(b)
    ensures a == b
  {
    hide AtMost, Ascends;
    assert |multiset(a)| == |a| && |multiset(b)| == |b|;
    if a != [] {
      assert a[0] in multiset(b) && b[0] in multiset(a);
      FirstIsLeast(a, b[0]);
      FirstIsLeast(b, a[0]);
      AtMostIsAntisymmetric(a[0], b[0]);
      Tail(a);
      Tail(b);
      OneAscent(a[1..], b[1..]);
    }
  }

  lemma SortingDecidesMultiset(a: seq<string>, b: seq<string>)
    ensures Sorted(a) == Sorted(b) <==> multiset(a) == multiset(b)
  {
    if multiset(a) == multiset(b) {
      SortedAscends(a);
      SortedAscends(b);
      OneAscent(Sorted(a), Sorted(b));
    }
  }

  // ---------------------------------------------------------------- joining texts

  function Join(texts: seq<string>): string {
    if texts == [] then ""
    else if |texts| == 1 then texts[0]
    else texts[0] + "," + Join(texts[1..])
  }

  predicate CleanText(t: string) {
    t != "" && ',' !in t && ':' !in t
  }

  predicate Clean(texts: seq<string>) {
    forall t | t in texts :: CleanText(t)
  }

  /** Two splittings at the first separator are the same splitting. */
  lemma SplitAtFirst(sep: char, a: string, x: string, b: string, y: string)
    requires a + [sep] + x == b + [sep] + y && sep !in a && sep !in b
    ensures a == b && x == y
  {
    var whole := a + [sep] + x;
    assert whole[|a|] == sep && whole[|b|] == sep;
    assert forall i | 0 <= i < |a| :: whole[i] == a[i];
    assert forall i | 0 <= i < |b| :: whole[i] == b[i];
    assert |a| == |b|;
    assert whole[..|a|] == a && whole[..|b|] == b;
    assert whole[|a| + 1..] == x && whole[|b| + 1..] == y;
  }

  lemma {:induction false} JoinHasNoColon(texts: seq<string>)
    requires Clean(texts)
    ensures ':' !in Join(texts)
    ensures texts != [] ==> Join(texts) != ""
  {
    if texts != [] {
      assert CleanText(texts[0]);
      JoinHasNoColon(texts[1..]);
    }
  }

  lemma {:induction false} JoinIsInjective(a: seq<string>, b: seq<string>)
    requires Clean(a) && Clean(b) && Join(a) == Join(b)
    ensures a == b
  {
    JoinHasNoColon(a);
    JoinHasNoColon(b);
    if a != [] && b != [] {
      assert CleanText(a[0]) && CleanText(b[0]);
      assert |a| > 1 ==> Join(a)[|a[0]|] == ',';
      assert |b| > 1 ==> Join(b)[|b[0]|] == ',';
      if |a| > 1 && |b| > 1 {
        SplitAtFirst(',', a[0], Join(a[1..]), b[0], Join(b[1..]));
        JoinIsInjective(a[1..], b[1..]);
        assert a == [a[0]] + a[1..] && b == [b[0]] + b[1..];
      }
    }
  }

  // ---------------------------------------------------------------- the key

  function ComputeGroupKey(relationship: string, banks: seq<string>, ledgers: seq<string>): string {
    relationship + ":" + (Join(Sorted(banks)) + ":" + Join(Sorted(ledgers)))
  }

  lemma SortedIsClean(texts: seq<string>)
    requires Clean(texts)
    ensures Clean(Sorted(texts))
  {
    forall t | t in Sorted(texts) ensures CleanText(t) {
      assert t in multiset(Sorted(texts));
      assert t in multiset(texts);
    }
  }

  /** Two proposals get one key exactly when they agree on the relationship and, as
      multisets, on the bank rows and the ledger rows. */
  lemma KeyDecidesMembership(
    r: string, banks: seq<string>, ledgers: seq<string>, r': string, banks': seq<string>, ledgers': seq<string>)
    requires ':' !in r && ':' !in r'
    requires Clean(banks) && Clean(ledgers) && Clean(banks') && Clean(ledgers')
    ensures ComputeGroupKey(r, banks, ledgers) == ComputeGroupKey(r', banks', ledgers')
            <==> r == r' && multiset(banks) == multiset(banks') && multiset(ledgers) == multiset(ledgers')
  {
    SortingDecidesMultiset(banks, banks');
    SortingDecidesMultiset(ledgers, ledgers');
    if ComputeGroupKey(r, banks, ledgers) == ComputeGroupKey(r', banks', ledgers') {
      var b, b', l, l' := Sorted(banks), Sorted(banks'), Sorted(ledgers), Sorted(ledgers');
      SortedIsClean(banks);
      SortedIsClean(banks');
      SortedIsClean(ledgers);
      SortedIsClean(ledgers');
      assert r + ":" + (Join(b) + ":" + Join(l)) == r' + ":" + (Join(b') + ":" + Join(l'));
      SplitAtFirst(':', r, Join(b) + ":" + Join(l), r', Join(b') + ":" + Join(l'));
      JoinHasNoColon(b);
      JoinHasNoColon(b');
      SplitAtFirst(':', Join(b), Join(l), Join(b'), Join(l'));
      JoinIsInjective(b, b');
      JoinIsInjective(l, l');
    }
  }
}
