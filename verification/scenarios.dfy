/** Worked examples of the settlement engine, computed stage by stage:
    balances, the two sides, the loop, the payments. */
module Scenarios {
  import opened Amounts
  import opened People
  import opened Shares
  import opened Partition
  import opened Matching
  import opened BillSplitter

  /** The payments for two steps over the given lists. */
  lemma EmitTwo(ds: seq<Entry>, cs: seq<Entry>, s0: Step, s1: Step)
    requires s0.debtor < |ds| && s0.creditor < |cs| && s1.debtor < |ds| && s1.creditor < |cs|
    ensures Emit(ds, cs, [s0, s1]) ==
            [Settlement(ds[s0.debtor].name, cs[s0.creditor].name, Round2(s0.amount)),
             Settlement(ds[s1.debtor].name, cs[s1.creditor].name, Round2(s1.amount))]
  {
  }

  /** The settlements of a non-empty list, stage by stage. */
  lemma SplitByStages(people: seq<Person>, bal: seq<Entry>, ds: seq<Entry>, cs: seq<Entry>, plan: seq<Step>)
    requires people != []
    requires Balances(people) == bal
    requires Debtors(bal) == ds && Creditors(bal) == cs
    requires Match(Ledger(Values(ds), Values(cs), 0, 0)) == plan
    ensures forall n :: 0 <= n < |plan| ==> plan[n].debtor < |ds| && plan[n].creditor < |cs|
    ensures CalculateSplit(people) == Emit(ds, cs, plan)
  {
    assert Start(people) == Ledger(Values(ds), Values(cs), 0, 0);
    assert Plan(people) == plan;
  }

  /** One person paid 100, one paid 0 and one entered no amount. */
  const OnePayer: seq<Person> := [Person(1, "A", Some(100.0)), Person(2, "B", Some(0.0)), Person(3, "C", None)]

  lemma OnePayerBalances()
    ensures Balances(OnePayer) == [Entry("A", 200.0 / 3.0), Entry("B", -100.0 / 3.0), Entry("C", -100.0 / 3.0)]
  {
    var xs := [100.0, 0.0, 0.0];
    assert Contributions(OnePayer) == xs;
    assert xs[..2] == [100.0, 0.0];
    assert [100.0, 0.0][..1] == [100.0];
    assert [100.0][..0] == [];
    assert Sum([100.0]) == 100.0;
    assert Sum([100.0, 0.0]) == 100.0;
    assert Sum(xs) == 100.0;
  }

  /** Equal debts keep their list order. */
  lemma OnePayerSides()
    ensures Debtors([Entry("A", 200.0 / 3.0), Entry("B", -100.0 / 3.0), Entry("C", -100.0 / 3.0)])
         == [Entry("B", -100.0 / 3.0), Entry("C", -100.0 / 3.0)]
    ensures Creditors([Entry("A", 200.0 / 3.0), Entry("B", -100.0 / 3.0), Entry("C", -100.0 / 3.0)])
         == [Entry("A", 200.0 / 3.0)]
  {
    var a, b, c := Entry("A", 200.0 / 3.0), Entry("B", -100.0 / 3.0), Entry("C", -100.0 / 3.0);
    var bal := [a, b, c];
    assert bal[1..] == [b, c];
    assert bal[1..][1..] == [c];
    assert Filter([c], Debtor) == [c];
    assert Filter(bal[1..], Debtor) == [b, c];
    assert Filter(bal, Debtor) == [b, c];
    assert Sort([c], Ascending) == [c];
    assert [b, c][1..] == [c];
    assert Sort([b, c], Ascending) == Insert(b, [c], Ascending);
    assert Filter([c], Creditor) == [];
    assert Filter(bal[1..], Creditor) == [];
    assert Filter(bal, Creditor) == [a];
  }

  /** The first debt fits in the credit; the second clears both. */
  lemma OnePayerPlan()
    ensures Match(Ledger([-100.0 / 3.0, -100.0 / 3.0], [200.0 / 3.0], 0, 0))
         == [Step(0, 0, 100.0 / 3.0), Step(1, 0, 100.0 / 3.0)]
  {
    var l := Ledger([-100.0 / 3.0, -100.0 / 3.0], [200.0 / 3.0], 0, 0);
    var l1 := Ledger([0.0, -100.0 / 3.0], [100.0 / 3.0], 1, 0);
    var l2 := Ledger([0.0, 0.0], [0.0], 2, 1);
    assert Amount(l) == 100.0 / 3.0;
    assert l.debts[0 := -100.0 / 3.0 + 100.0 / 3.0] == l1.debts;
    assert l.credits[0 := 200.0 / 3.0 - 100.0 / 3.0] == l1.credits;
    assert Advance(l) == l1;
    assert Amount(l1) == 100.0 / 3.0;
    assert l1.debts[1 := -100.0 / 3.0 + 100.0 / 3.0] == l2.debts;
    assert l1.credits[0 := 100.0 / 3.0 - 100.0 / 3.0] == l2.credits;
    assert Advance(l1) == l2;
    assert Match(l2) == [];
    MatchUnfold(l1);
    MatchUnfold(l);
  }

  /** Each of the two who paid nothing pays the payer a third of 100,
      rounded to cents; equal debts are paid in list order. */
  lemma OnePayerSettlements()
    ensures CalculateSplit(OnePayer) == [Settlement("B", "A", 33.33), Settlement("C", "A", 33.33)]
  {
    var bal := [Entry("A", 200.0 / 3.0), Entry("B", -100.0 / 3.0), Entry("C", -100.0 / 3.0)];
    var ds := [Entry("B", -100.0 / 3.0), Entry("C", -100.0 / 3.0)];
    var cs := [Entry("A", 200.0 / 3.0)];
    var plan := [Step(0, 0, 100.0 / 3.0), Step(1, 0, 100.0 / 3.0)];
    assert Balances(OnePayer) == bal by { OnePayerBalances(); }
    assert Debtors(bal) == ds && Creditors(bal) == cs by { OnePayerSides(); }
    OnePayerLedger();
    SplitByStages(OnePayer, bal, ds, cs, plan);
    OnePayerPayments();
  }

  /** The loop runs over the balances of the two sides. */
  lemma OnePayerLedger()
    ensures Match(Ledger(Values([Entry("B", -100.0 / 3.0), Entry("C", -100.0 / 3.0)]), Values([Entry("A", 200.0 / 3.0)]), 0, 0))
         == [Step(0, 0, 100.0 / 3.0), Step(1, 0, 100.0 / 3.0)]
  {
    assert Values([Entry("B", -100.0 / 3.0), Entry("C", -100.0 / 3.0)]) == [-100.0 / 3.0, -100.0 / 3.0];
    assert Values([Entry("A", 200.0 / 3.0)]) == [200.0 / 3.0];
    OnePayerPlan();
  }

  /** The two steps become payments between the named people. */
  lemma OnePayerPayments()
    ensures Emit([Entry("B", -100.0 / 3.0), Entry("C", -100.0 / 3.0)], [Entry("A", 200.0 / 3.0)], [Step(0, 0, 100.0 / 3.0), Step(1, 0, 100.0 / 3.0)])
         == [Settlement("B", "A", 33.33), Settlement("C", "A", 33.33)]
  {
    EmitTwo([Entry("B", -100.0 / 3.0), Entry("C", -100.0 / 3.0)], [Entry("A", 200.0 / 3.0)], Step(0, 0, 100.0 / 3.0), Step(1, 0, 100.0 / 3.0));
    OnePayerRounding();
  }

  /** A third of 100 shows as 33.33. */
  lemma OnePayerRounding()
    ensures Round2(100.0 / 3.0) == 33.33
  {
    assert (100.0 / 3.0 * 100.0 + 0.5).Floor == 3333;
  }

  /** A paid 30, B paid 10 and C entered no amount; the fair share is 40/3. */
  const Uneven: seq<Person> := [Person(1, "A", Some(30.0)), Person(2, "B", Some(10.0)), Person(3, "C", None)]

  lemma UnevenBalances()
    ensures Balances(Uneven) == [Entry("A", 50.0 / 3.0), Entry("B", -10.0 / 3.0), Entry("C", -40.0 / 3.0)]
  {
    var xs := [30.0, 10.0, 0.0];
    assert Contributions(Uneven) == xs;
    assert xs[..2] == [30.0, 10.0];
    assert [30.0, 10.0][..1] == [30.0];
    assert [30.0][..0] == [];
    assert Sum([30.0]) == 30.0;
    assert Sum([30.0, 10.0]) == 40.0;
    assert Sum(xs) == 40.0;
  }

  /** C owes more than B, so C comes first among the debtors. */
  lemma UnevenSides()
    ensures Debtors([Entry("A", 50.0 / 3.0), Entry("B", -10.0 / 3.0), Entry("C", -40.0 / 3.0)])
         == [Entry("C", -40.0 / 3.0), Entry("B", -10.0 / 3.0)]
    ensures Creditors([Entry("A", 50.0 / 3.0), Entry("B", -10.0 / 3.0), Entry("C", -40.0 / 3.0)])
         == [Entry("A", 50.0 / 3.0)]
  {
    var a, b, c := Entry("A", 50.0 / 3.0), Entry("B", -10.0 / 3.0), Entry("C", -40.0 / 3.0);
    var bal := [a, b, c];
    assert bal[1..] == [b, c];
    assert bal[1..][1..] == [c];
    assert Filter([c], Debtor) == [c];
    assert Filter(bal[1..], Debtor) == [b, c];
    assert Filter(bal, Debtor) == [b, c];
    assert Sort([c], Ascending) == [c];
    assert [b, c][1..] == [c];
    assert Insert(b, [], Ascending) == [b];
    assert Sort([b, c], Ascending) == Insert(b, [c], Ascending);
    assert Filter([c], Creditor) == [];
    assert Filter(bal[1..], Creditor) == [];
    assert Filter(bal, Creditor) == [a];
  }

  /** C's whole debt fits in A's credit; B's debt is exactly what is left. */
  lemma UnevenPlan()
    ensures Match(Ledger([-40.0 / 3.0, -10.0 / 3.0], [50.0 / 3.0], 0, 0))
         == [Step(0, 0, 40.0 / 3.0), Step(1, 0, 10.0 / 3.0)]
  {
    var l := Ledger([-40.0 / 3.0, -10.0 / 3.0], [50.0 / 3.0], 0, 0);
    var l1 := Ledger([0.0, -10.0 / 3.0], [10.0 / 3.0], 1, 0);
    var l2 := Ledger([0.0, 0.0], [0.0], 2, 1);
    assert Amount(l) == 40.0 / 3.0;
    assert l.debts[0 := -40.0 / 3.0 + 40.0 / 3.0] == l1.debts;
    assert l.credits[0 := 50.0 / 3.0 - 40.0 / 3.0] == l1.credits;
    assert Advance(l) == l1;
    assert Amount(l1) == 10.0 / 3.0;
    assert l1.debts[1 := -10.0 / 3.0 + 10.0 / 3.0] == l2.debts;
    assert l1.credits[0 := 10.0 / 3.0 - 10.0 / 3.0] == l2.credits;
    assert Advance(l1) == l2;
    assert Match(l2) == [];
    MatchUnfold(l1);
    MatchUnfold(l);
  }

  /** C pays A 13.33 and B pays A 3.33: with exact amounts the second
      payment is 10/3, which rounds down. */
  lemma UnevenSettlements()
    ensures CalculateSplit(Uneven) == [Settlement("C", "A", 13.33), Settlement("B", "A", 3.33)]
  {
    var bal := [Entry("A", 50.0 / 3.0), Entry("B", -10.0 / 3.0), Entry("C", -40.0 / 3.0)];
    var ds := [Entry("C", -40.0 / 3.0), Entry("B", -10.0 / 3.0)];
    var cs := [Entry("A", 50.0 / 3.0)];
    var plan := [Step(0, 0, 40.0 / 3.0), Step(1, 0, 10.0 / 3.0)];
    assert Balances(Uneven) == bal by { UnevenBalances(); }
    assert Debtors(bal) == ds && Creditors(bal) == cs by { UnevenSides(); }
    UnevenLedger();
    SplitByStages(Uneven, bal, ds, cs, plan);
    UnevenPayments();
  }

  /** The loop runs over the balances of the two sides. */
  lemma UnevenLedger()
    ensures Match(Ledger(Values([Entry("C", -40.0 / 3.0), Entry("B", -10.0 / 3.0)]), Values([Entry("A", 50.0 / 3.0)]), 0, 0))
         == [Step(0, 0, 40.0 / 3.0), Step(1, 0, 10.0 / 3.0)]
  {
    assert Values([Entry("C", -40.0 / 3.0), Entry("B", -10.0 / 3.0)]) == [-40.0 / 3.0, -10.0 / 3.0];
    assert Values([Entry("A", 50.0 / 3.0)]) == [50.0 / 3.0];
    UnevenPlan();
  }

  /** The two steps become payments between the named people. */
  lemma UnevenPayments()
    ensures Emit([Entry("C", -40.0 / 3.0), Entry("B", -10.0 / 3.0)], [Entry("A", 50.0 / 3.0)], [Step(0, 0, 40.0 / 3.0), Step(1, 0, 10.0 / 3.0)])
         == [Settlement("C", "A", 13.33), Settlement("B", "A", 3.33)]
  {
    EmitTwo([Entry("C", -40.0 / 3.0), Entry("B", -10.0 / 3.0)], [Entry("A", 50.0 / 3.0)], Step(0, 0, 40.0 / 3.0), Step(1, 0, 10.0 / 3.0));
    UnevenRounding();
  }

  /** 40/3 shows as 13.33 and 10/3 as 3.33. */
  lemma UnevenRounding()
    ensures Round2(40.0 / 3.0) == 13.33
    ensures Round2(10.0 / 3.0) == 3.33
  {
    assert (40.0 / 3.0 * 100.0 + 0.5).Floor == 1333;
    assert (10.0 / 3.0 * 100.0 + 0.5).Floor == 333;
  }

  /** Two people who paid the same owe each other nothing. */
  lemma EvenPairSettlements()
    ensures CalculateSplit([Person(1, "A", Some(50.0)), Person(2, "B", Some(50.0))]) == []
  {
    EqualContributionsNoSettlements([Person(1, "A", Some(50.0)), Person(2, "B", Some(50.0))], 50.0);
  }

  /** A paid 0.003 and B entered no amount. */
  const Tiny: seq<Person> := [Person(1, "A", Some(0.003)), Person(2, "B", None)]

  lemma TinyBalances()
    ensures Balances(Tiny) == [Entry("A", 0.0015), Entry("B", -0.0015)]
  {
    var xs := [0.003, 0.0];
    assert Contributions(Tiny) == xs;
    assert xs[..1] == [0.003];
    assert [0.003][..0] == [];
    assert Sum(xs) == 0.003;
  }

  lemma TinySides()
    ensures Debtors([Entry("A", 0.0015), Entry("B", -0.0015)]) == [Entry("B", -0.0015)]
    ensures Creditors([Entry("A", 0.0015), Entry("B", -0.0015)]) == [Entry("A", 0.0015)]
  {
    var a, b := Entry("A", 0.0015), Entry("B", -0.0015);
    assert [a, b][1..] == [b];
    assert Filter([b], Debtor) == [b];
    assert Filter([a, b], Debtor) == [b];
    assert Filter([b], Creditor) == [];
    assert Filter([a, b], Creditor) == [a];
  }

  lemma TinyPlan()
    ensures Match(Ledger([-0.0015], [0.0015], 0, 0)) == [Step(0, 0, 0.0015)]
  {
    var l := Ledger([-0.0015], [0.0015], 0, 0);
    assert Amount(l) == 0.0015;
    assert l.debts[0 := -0.0015 + 0.0015] == [0.0];
    assert l.credits[0 := 0.0015 - 0.0015] == [0.0];
    assert Advance(l) == Ledger([0.0], [0.0], 1, 1);
    assert Match(Ledger([0.0], [0.0], 1, 1)) == [];
    MatchUnfold(l);
  }

  /** A debt below half a cent is still paid, and the payment shows as
      0.00: the unrounded amount is positive but the rounded one is not. */
  lemma TinyDebtRoundsToZero()
    ensures CalculateSplit(Tiny) == [Settlement("B", "A", 0.0)]
  {
    var bal := [Entry("A", 0.0015), Entry("B", -0.0015)];
    var ds := [Entry("B", -0.0015)];
    var cs := [Entry("A", 0.0015)];
    TinyBalances();
    TinySides();
    TinyLedger();
    SplitByStages(Tiny, bal, ds, cs, [Step(0, 0, 0.0015)]);
    TinyPayment();
  }

  lemma TinyLedger()
    ensures Match(Ledger(Values([Entry("B", -0.0015)]), Values([Entry("A", 0.0015)]), 0, 0)) == [Step(0, 0, 0.0015)]
  {
    assert Values([Entry("B", -0.0015)]) == [-0.0015];
    assert Values([Entry("A", 0.0015)]) == [0.0015];
    TinyPlan();
  }

  lemma TinyPayment()
    ensures Emit([Entry("B", -0.0015)], [Entry("A", 0.0015)], [Step(0, 0, 0.0015)]) == [Settlement("B", "A", 0.0)]
  {
    var r := Emit([Entry("B", -0.0015)], [Entry("A", 0.0015)], [Step(0, 0, 0.0015)]);
    assert r[0] == Settlement("B", "A", Round2(0.0015));
    TinyRounding();
  }

  /** 0.0015 is below half a cent and shows as 0.00. */
  lemma TinyRounding()
    ensures Round2(0.0015) == 0.0
  {
    assert (0.0015 * 100.0 + 0.5).Floor == 0;
  }
}
