/** The second half of the preparation: splitting the balances into the
    people who owe (most negative first) and the people who are owed
    (largest first), the two lists the greedy matching walks. */
module Partition {
  import opened Amounts
  import opened Shares

  datatype Side = Debtor | Creditor

  /** Debtors have a negative balance, creditors a positive one; a zero
      balance is on neither side. */
  predicate OnSide(e: Entry, side: Side) {
    match side
    case Debtor => e.balance < 0.0
    case Creditor => e.balance > 0.0
  }

  /** The entries on one side, in their original order. */
  function Filter(es: seq<Entry>, side: Side): (r: seq<Entry>)
    ensures |r| <= |es|
    ensures forall k :: 0 <= k < |r| ==> OnSide(r[k], side)
    ensures forall e :: multiset(r)[e] == if OnSide(e, side) then multiset(es)[e] else 0
  {
    if es == [] then []
    else
      var rest := Filter(es[1..], side);
      assert es == [es[0]] + es[1..];
      if OnSide(es[0], side) then [es[0]] + rest else rest
  }

  datatype Direction = Ascending | Descending

  /** `a` may come before `b` in a list sorted by balance in direction `dir`. */
  predicate InOrder(a: Entry, b: Entry, dir: Direction) {
    match dir
    case Ascending => a.balance <= b.balance
    case Descending => a.balance >= b.balance
  }

  predicate Sorted(es: seq<Entry>, dir: Direction) {
    forall a, b :: 0 <= a < b < |es| ==> InOrder(es[a], es[b], dir)
  }

  /** Inserts `x` in front of the first entry it may precede, so that `x`
      stays ahead of the entries with the same balance. */
  function Insert(x: Entry, es: seq<Entry>, dir: Direction): (r: seq<Entry>)
    requires Sorted(es, dir)
    ensures Sorted(r, dir)
    ensures multiset(r) == multiset(es) + multiset{x}
  {
    if es == [] then [x]
    else if InOrder(x, es[0], dir) then [x] + es
    else
      var rest := Insert(x, es[1..], dir);
      assert es == [es[0]] + es[1..];
      FirstPrecedesAll(es, x, rest, dir);
      ConsSorted(es[0], rest, dir);
      [es[0]] + rest
  }

  /** The first entry of a sorted list may precede every entry of the list
      and every entry that may not precede it. */
  lemma FirstPrecedesAll(es: seq<Entry>, x: Entry, rest: seq<Entry>, dir: Direction)
    requires es != [] && Sorted(es, dir) && !InOrder(x, es[0], dir)
    requires multiset(rest) == multiset(es[1..]) + multiset{x}
    ensures forall e :: e in multiset(rest) ==> InOrder(es[0], e, dir)
  {
    forall e | e in multiset(rest) ensures InOrder(es[0], e, dir) {
      if e != x {
        assert e in multiset(es[1..]);
        var b :| 0 <= b < |es[1..]| && es[1..][b] == e;
        assert es[b + 1] == e;
      }
    }
  }

  /** An entry that may precede every entry of a sorted list can be put in
      front of it. */
  lemma ConsSorted(h: Entry, rest: seq<Entry>, dir: Direction)
    requires Sorted(rest, dir)
    requires forall e :: e in multiset(rest) ==> InOrder(h, e, dir)
    ensures Sorted([h] + rest, dir)
  {
    var r := [h] + rest;
    forall a, b | 0 <= a < b < |r| ensures InOrder(r[a], r[b], dir) {
      assert r[b] == rest[b - 1];
      assert rest[b - 1] in multiset(rest);
      if a > 0 {
        assert r[a] == rest[a - 1];
      }
    }
  }

  /** A stable insertion sort on balances. */
  function Sort(es: seq<Entry>, dir: Direction): (r: seq<Entry>)
    ensures Sorted(r, dir)
    ensures multiset(r) == multiset(es)
  {
    if es == [] then []
    else
      assert es == [es[0]] + es[1..];
      Insert(es[0], Sort(es[1..], dir), dir)
  }

  /** The people who owe money, largest debt (most negative balance) first. */
  function Debtors(es: seq<Entry>): (r: seq<Entry>)
    ensures Sorted(r, Ascending)
    ensures forall k :: 0 <= k < |r| ==> r[k].balance < 0.0
    ensures forall e :: multiset(r)[e] == if e.balance < 0.0 then multiset(es)[e] else 0
  {
    var r := Sort(Filter(es, Debtor), Ascending);
    assert forall k :: 0 <= k < |r| ==> r[k] in multiset(Filter(es, Debtor));
    r
  }

  /** The people who are owed money, largest credit first. */
  function Creditors(es: seq<Entry>): (r: seq<Entry>)
    ensures Sorted(r, Descending)
    ensures forall k :: 0 <= k < |r| ==> r[k].balance > 0.0
    ensures forall e :: multiset(r)[e] == if e.balance > 0.0 then multiset(es)[e] else 0
  {
    var r := Sort(Filter(es, Creditor), Descending);
    assert forall k :: 0 <= k < |r| ==> r[k] in multiset(Filter(es, Creditor));
    r
  }

  /** Together the two lists hold no more entries than there are people. */
  lemma SidesFitInPeople(es: seq<Entry>)
    ensures |Debtors(es)| + |Creditors(es)| <= |es|
  {
    var d := Filter(es, Debtor);
    var c := Filter(es, Creditor);
    FilterSidesFit(es);
    assert |Debtors(es)| == |multiset(d)|;
    assert |Creditors(es)| == |multiset(c)|;
  }

  lemma {:induction false} FilterSidesFit(es: seq<Entry>)
    ensures |Filter(es, Debtor)| + |Filter(es, Creditor)| <= |es|
  {
    if es != [] {
      FilterSidesFit(es[1..]);
    }
  }

  /** When every balance is zero nobody owes and nobody is owed. */
  lemma NoSidesWhenAllZero(es: seq<Entry>)
    requires forall k :: 0 <= k < |es| ==> es[k].balance == 0.0
    ensures Debtors(es) == [] && Creditors(es) == []
  {
  }

  /** Both lists draw their entries from the balances. */
  lemma SidesComeFromEntries(es: seq<Entry>)
    ensures forall k :: 0 <= k < |Debtors(es)| ==> Debtors(es)[k] in es
    ensures forall k :: 0 <= k < |Creditors(es)| ==> Creditors(es)[k] in es
  {
    var ds := Debtors(es);
    var cs := Creditors(es);
    forall k | 0 <= k < |ds| ensures ds[k] in es {
      assert ds[k] in multiset(ds);
    }
    forall k | 0 <= k < |cs| ensures cs[k] in es {
      assert cs[k] in multiset(cs);
    }
  }

  lemma ValuesCons(e: Entry, es: seq<Entry>)
    ensures Values([e] + es) == [e.balance] + Values(es)
  {
  }

  lemma {:induction false} InsertKeepsSum(x: Entry, es: seq<Entry>, dir: Direction)
    requires Sorted(es, dir)
    ensures Sum(Values(Insert(x, es, dir))) == x.balance + Sum(Values(es))
  {
    if es == [] {
      ValuesCons(x, []);
      SumCons(x.balance, []);
    } else if InOrder(x, es[0], dir) {
      ValuesCons(x, es);
      SumCons(x.balance, Values(es));
    } else {
      assert es == [es[0]] + es[1..];
      InsertKeepsSum(x, es[1..], dir);
      ValuesCons(es[0], Insert(x, es[1..], dir));
      SumCons(es[0].balance, Values(Insert(x, es[1..], dir)));
      ValuesCons(es[0], es[1..]);
      SumCons(es[0].balance, Values(es[1..]));
    }
  }

  /** Sorting does not change the total of the balances. */
  lemma {:induction false} SortKeepsSum(es: seq<Entry>, dir: Direction)
    ensures Sum(Values(Sort(es, dir))) == Sum(Values(es))
  {
    if es != [] {
      assert es == [es[0]] + es[1..];
      SortKeepsSum(es[1..], dir);
      InsertKeepsSum(es[0], Sort(es[1..], dir), dir);
      ValuesCons(es[0], es[1..]);
      SumCons(es[0].balance, Values(es[1..]));
    }
  }

  /** Zero balances add nothing, so the two sides together carry the whole
      total. */
  lemma {:induction false} FilterSplitsSum(es: seq<Entry>)
    ensures Sum(Values(Filter(es, Debtor))) + Sum(Values(Filter(es, Creditor))) == Sum(Values(es))
  {
    if es != [] {
      var e := es[0];
      assert es == [e] + es[1..];
      FilterSplitsSum(es[1..]);
      ValuesCons(e, es[1..]);
      SumCons(e.balance, Values(es[1..]));
      ValuesCons(e, Filter(es[1..], Debtor));
      SumCons(e.balance, Values(Filter(es[1..], Debtor)));
      ValuesCons(e, Filter(es[1..], Creditor));
      SumCons(e.balance, Values(Filter(es[1..], Creditor)));
    }
  }

  /** What the debtors owe and what the creditors are owed add up to the
      total of all balances. */
  lemma SidesKeepSum(es: seq<Entry>)
    ensures Sum(Values(Debtors(es))) + Sum(Values(Creditors(es))) == Sum(Values(es))
  {
    FilterSplitsSum(es);
    SortKeepsSum(Filter(es, Debtor), Ascending);
    SortKeepsSum(Filter(es, Creditor), Descending);
  }
}
