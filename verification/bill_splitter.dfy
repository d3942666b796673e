/** The settlement engine of the bill splitter: from the participant list to
    the list of payments that evens everyone out. */
module BillSplitter {
  import opened Amounts
  import opened People
  import opened Shares
  import opened Partition
  import opened Matching

  /** A payment instruction: `from` pays `to` the rounded `amount`. */
  datatype Settlement = Settlement(from: string, to: string, amount: real)

  /** The loop's starting state: the debtor and creditor balances with both
      cursors at the front. */
  function Start(people: seq<Person>): (l: Ledger)
    ensures l.Open()
    ensures |l.debts| + |l.credits| <= |people|
  {
    var bal := Balances(people);
    SidesFitInPeople(bal);
    SidesOpen(bal);
    Ledger(Values(Debtors(bal)), Values(Creditors(bal)), 0, 0)
  }

  /** The debtor balances are all negative and the creditor balances all
      positive, so the loop may start at the front of both lists. */
  lemma SidesOpen(es: seq<Entry>)
    ensures Ledger(Values(Debtors(es)), Values(Creditors(es)), 0, 0).Open()
  {
    var ds, cs := Values(Debtors(es)), Values(Creditors(es));
    assert forall k :: 0 <= k < |ds| ==> ds[k] == Debtors(es)[k].balance;
    assert forall k :: 0 <= k < |cs| ==> cs[k] == Creditors(es)[k].balance;
  }

  /** The steps the greedy loop takes for `people`, as positions into the
      debtor and creditor lists, with amounts before rounding. */
  function Plan(people: seq<Person>): (r: seq<Step>)
    ensures |people| <= 1 ==> r == []
    ensures |people| > 1 ==> |r| <= |people| - 1
    ensures |Debtors(Balances(people))| == 0 || |Creditors(Balances(people))| == 0 ==> r == []
    ensures |r| <= |Debtors(Balances(people))| + |Creditors(Balances(people))| - 1 || r == []
    ensures forall n :: 0 <= n < |r| ==>
              r[n].debtor < |Debtors(Balances(people))| &&
              r[n].creditor < |Creditors(Balances(people))|
  {
    if |people| == 1 then
      EqualContributionsZeroBalances(people, Contribution(people[0]));
      NoSidesWhenAllZero(Balances(people));
      Match(Start(people))
    else
      Match(Start(people))
  }

  /** Turns steps into payment instructions: names looked up in the two
      lists, amounts rounded to cents. */
  function Emit(ds: seq<Entry>, cs: seq<Entry>, steps: seq<Step>): (r: seq<Settlement>)
    requires forall n :: 0 <= n < |steps| ==> steps[n].debtor < |ds| && steps[n].creditor < |cs|
    ensures |r| == |steps|
    ensures forall n :: 0 <= n < |steps| ==>
              r[n] == Settlement(ds[steps[n].debtor].name, cs[steps[n].creditor].name, Round2(steps[n].amount))
  {
    seq(|steps|, n requires 0 <= n < |steps| =>
      Settlement(ds[steps[n].debtor].name, cs[steps[n].creditor].name, Round2(steps[n].amount)))
  }

  lemma EmitSnoc(ds: seq<Entry>, cs: seq<Entry>, steps: seq<Step>, s: Step)
    requires forall n :: 0 <= n < |steps| ==> steps[n].debtor < |ds| && steps[n].creditor < |cs|
    requires s.debtor < |ds| && s.creditor < |cs|
    ensures Emit(ds, cs, steps + [s]) ==
            Emit(ds, cs, steps) + [Settlement(ds[s.debtor].name, cs[s.creditor].name, Round2(s.amount))]
  {
  }

  /** The settlements for `people`: nothing for an empty list, and at most
      one fewer payment than there are people. */
  function CalculateSplit(people: seq<Person>): (r: seq<Settlement>)
    ensures people == [] ==> r == []
    ensures |people| > 0 ==> |r| <= |people| - 1
  {
    if people == [] then []
    else Emit(Debtors(Balances(people)), Creditors(Balances(people)), Plan(people))
  }

  /** The plan for `people` pays positive amounts only, each the smaller of
      what the current debtor still owes and the current creditor is still
      owed; no debtor pays more than its debt and no creditor receives more
      than its credit. */
  lemma PlanRespectsBalances(people: seq<Person>)
    ensures var ds := Debtors(Balances(people));
      forall k :: 0 <= k < |ds| ==> SentBy(Plan(people), k) <= -ds[k].balance
    ensures var cs := Creditors(Balances(people));
      forall k :: 0 <= k < |cs| ==> ReceivedBy(Plan(people), k) <= cs[k].balance
    ensures forall n :: 0 <= n < |Plan(people)| ==> Plan(people)[n].amount > 0.0
    ensures PaysSmallerRemainder(Values(Debtors(Balances(people))), Values(Creditors(Balances(people))), Plan(people))
  {
    assert Plan(people) == Match(Start(people));
    LedgerRespectsEntries(Start(people), Debtors(Balances(people)), Creditors(Balances(people)));
  }

  /** The plan from the starting state built from `ds` and `cs` pays
      positive amounts that never exceed any entry's balance. */
  lemma LedgerRespectsEntries(l: Ledger, ds: seq<Entry>, cs: seq<Entry>)
    requires l == Ledger(Values(ds), Values(cs), 0, 0) && l.Open()
    ensures forall k :: 0 <= k < |ds| ==> SentBy(Match(l), k) <= -ds[k].balance
    ensures forall k :: 0 <= k < |cs| ==> ReceivedBy(Match(l), k) <= cs[k].balance
    ensures forall n :: 0 <= n < |Match(l)| ==> Match(l)[n].amount > 0.0
    ensures PaysSmallerRemainder(Values(ds), Values(cs), Match(l))
  {
    MatchAmountsPositive(l);
    MatchWithinBalances(l);
    MatchPaysSmallerRemainder(l);
    forall k | 0 <= k < |ds| ensures SentBy(Match(l), k) <= -ds[k].balance {
      assert l.debts[k] == ds[k].balance;
    }
    forall k | 0 <= k < |cs| ensures ReceivedBy(Match(l), k) <= cs[k].balance {
      assert l.credits[k] == cs[k].balance;
    }
  }

  /** Some entry of `es` carries `name` and a negative balance. */
  predicate OwesUnder(es: seq<Entry>, name: string) {
    exists a :: 0 <= a < |es| && es[a].name == name && es[a].balance < 0.0
  }

  /** Some entry of `es` carries `name` and a positive balance. */
  predicate IsOwedUnder(es: seq<Entry>, name: string) {
    exists a :: 0 <= a < |es| && es[a].name == name && es[a].balance > 0.0
  }

  /** Payments built from steps over lists drawn from `es` name an entry of
      `es` on the right side as payer and as payee. */
  lemma EmitNamesSides(ds: seq<Entry>, cs: seq<Entry>, es: seq<Entry>, steps: seq<Step>)
    requires forall n :: 0 <= n < |steps| ==> steps[n].debtor < |ds| && steps[n].creditor < |cs|
    requires forall k :: 0 <= k < |ds| ==> ds[k] in es && ds[k].balance < 0.0
    requires forall k :: 0 <= k < |cs| ==> cs[k] in es && cs[k].balance > 0.0
    ensures forall n :: 0 <= n < |steps| ==> OwesUnder(es, Emit(ds, cs, steps)[n].from)
    ensures forall n :: 0 <= n < |steps| ==> IsOwedUnder(es, Emit(ds, cs, steps)[n].to)
  {
    var r := Emit(ds, cs, steps);
    forall n | 0 <= n < |steps|
      ensures OwesUnder(es, r[n].from) && IsOwedUnder(es, r[n].to)
    {
      var d := ds[steps[n].debtor];
      assert d in es;
      var a :| 0 <= a < |es| && es[a] == d;
      var c := cs[steps[n].creditor];
      assert c in es;
      var b :| 0 <= b < |es| && es[b] == c;
    }
  }

  /** Every payment goes from a person who paid less than the fair share to
      a person who paid more. */
  lemma SettlementsGoFromDebtorsToCreditors(people: seq<Person>)
    ensures |CalculateSplit(people)| == |Plan(people)|
    ensures forall n :: 0 <= n < |CalculateSplit(people)| ==>
              OwesUnder(Balances(people), CalculateSplit(people)[n].from) &&
              IsOwedUnder(Balances(people), CalculateSplit(people)[n].to)
  {
    if people != [] {
      var bal := Balances(people);
      SidesComeFromEntries(bal);
      EmitNamesSides(Debtors(bal), Creditors(bal), bal, Plan(people));
    }
  }

  /** Every payment is the rounded amount of a plan step, and the amount
      before rounding is positive. */
  lemma SettlementAmounts(people: seq<Person>)
    ensures |CalculateSplit(people)| == |Plan(people)|
    ensures forall n :: 0 <= n < |CalculateSplit(people)| ==>
              CalculateSplit(people)[n].amount == Round2(Plan(people)[n].amount) &&
              Plan(people)[n].amount > 0.0
  {
    if people != [] {
      assert Plan(people) == Match(Start(people));
      MatchAmountsPositive(Start(people));
    }
  }

  /** The loop starts from a consistent state whose debts and credits
      cancel out. */
  lemma StartBalanced(people: seq<Person>)
    ensures Consistent(Start(people))
    ensures Sum(Start(people).debts) + Sum(Start(people).credits) == 0.0
  {
    var bal := Balances(people);
    var l := Start(people);
    assert l == Ledger(Values(Debtors(bal)), Values(Creditors(bal)), 0, 0);
    BalancesSumToZero(people);
    SidesKeepSum(bal);
    assert l.Open();
  }

  /** After the planned payments every debtor and every creditor is within
      a cent per participant of having paid exactly the fair share: the
      loop stops only when one side is settled to the tolerance, and the
      balances cancel out, so little can be left on the other side. */
  lemma EveryoneEndsNearFairShare(people: seq<Person>)
    ensures DebtsWithin(Values(Debtors(Balances(people))), Plan(people), Slack(|people|))
    ensures CreditsWithin(Values(Creditors(Balances(people))), Plan(people), Slack(|people|))
  {
    StartBalanced(people);
    assert Plan(people) == Match(Start(people));
    LedgerEndsWithin(Start(people), Debtors(Balances(people)), Creditors(Balances(people)), |people|);
  }

  /** The plan from a consistent state built from `ds` and `cs` whose
      balances cancel out leaves every party of `ds` and `cs` within a
      tolerance per party of its balance. */
  lemma LedgerEndsWithin(l: Ledger, ds: seq<Entry>, cs: seq<Entry>, n: nat)
    requires l.debts == Values(ds) && l.credits == Values(cs)
    requires Consistent(l)
    requires Sum(l.debts) + Sum(l.credits) == 0.0
    requires |l.debts| + |l.credits| <= n
    ensures DebtsWithin(Values(ds), Match(l), Slack(n))
    ensures CreditsWithin(Values(cs), Match(l), Slack(n))
  {
    MatchEndsNearlySettled(l, n);
  }

  /** When everyone paid the same amount (in particular with one person, or
      when nobody entered an amount) nobody owes anybody. */
  lemma EqualContributionsNoSettlements(people: seq<Person>, v: real)
    requires forall k :: 0 <= k < |people| ==> Contribution(people[k]) == v
    ensures CalculateSplit(people) == []
  {
    if people != [] {
      EqualContributionsZeroBalances(people, v);
      NoSidesWhenAllZero(Balances(people));
    }
  }

  /** The engine as `calculateSplit` writes it: balances, then the two sides,
      then the greedy loop. */
  method CalculateSplitLoop(people: seq<Person>) returns (settlements: seq<Settlement>)
    ensures settlements == CalculateSplit(people)
  {
    if |people| == 0 {
      return [];
    }
    var balances := Balances(people);
    var debtors := Debtors(balances);
    var creditors := Creditors(balances);
    settlements := SettleLoop(debtors, creditors);
  }

  /** Taking one step moves it from the plan still ahead to the steps done. */
  lemma PlanStep(l: Ledger, done: seq<Step>, plan: seq<Step>)
    requires l.Running()
    requires done + Match(l) == plan
    ensures (done + [Step(l.di, l.ci, Amount(l))]) + Match(Advance(l)) == plan
  {
    MatchUnfold(l);
    var step := Step(l.di, l.ci, Amount(l));
    assert (done + [step]) + Match(Advance(l)) == done + ([step] + Match(Advance(l)));
  }

  /** One pass of the loop body computes the next state of the loop: the
      amount taken off both parties, their new balances and the test that
      decides whether each cursor moves. */
  lemma LoopStepIsAdvance(l: Ledger, amount: real, debts: seq<real>, credits: seq<real>)
    requires l.Running()
    requires amount == Min(-l.debts[l.di], l.credits[l.ci])
    requires debts == l.debts[l.di := l.debts[l.di] + amount]
    requires credits == l.credits[l.ci := l.credits[l.ci] - amount]
    ensures amount == Amount(l)
    ensures Advance(l).debts == debts && Advance(l).credits == credits
    ensures Advance(l).di == if Abs(debts[l.di]) < Tolerance then l.di + 1 else l.di
    ensures Advance(l).ci == if Abs(credits[l.ci]) < Tolerance then l.ci + 1 else l.ci
  {
  }

  /** Every step of `steps` names a debtor below `nd` and a creditor below `nc`. */
  predicate StepsWithin(steps: seq<Step>, nd: nat, nc: nat) {
    forall n :: 0 <= n < |steps| ==> steps[n].debtor < nd && steps[n].creditor < nc
  }

  lemma StepsWithinSnoc(steps: seq<Step>, s: Step, nd: nat, nc: nat)
    requires StepsWithin(steps, nd, nc) && s.debtor < nd && s.creditor < nc
    ensures StepsWithin(steps + [s], nd, nc)
    ensures forall n :: 0 <= n < |steps| ==> steps[n].debtor < nd && steps[n].creditor < nc
  {
  }

  /** The greedy loop: the two cursors walk the debtor and creditor lists,
      taking each payment off both current balances (names never change, so
      only the balances are kept apart). */
  method SettleLoop(debtors: seq<Entry>, creditors: seq<Entry>) returns (settlements: seq<Settlement>)
    ensures settlements == Emit(debtors, creditors, Match(Ledger(Values(debtors), Values(creditors), 0, 0)))
  {
    var debts := Values(debtors);
    var credits := Values(creditors);
    var debtorIndex := 0;
    var creditorIndex := 0;
    settlements := [];
    ghost var done: seq<Step> := [];
    ghost var plan := Match(Ledger(debts, credits, 0, 0));
    while debtorIndex < |debts| && creditorIndex < |credits|
      invariant |debts| == |debtors| && |credits| == |creditors|
      invariant done + Match(Ledger(debts, credits, debtorIndex, creditorIndex)) == plan
      invariant StepsWithin(done, |debtors|, |creditors|)
      invariant settlements == Emit(debtors, creditors, done)
      decreases Ledger(debts, credits, debtorIndex, creditorIndex).Pending()
    {
      ghost var l := Ledger(debts, credits, debtorIndex, creditorIndex);
      var amount := Min(-debts[debtorIndex], credits[creditorIndex]);
      settlements := settlements + [Settlement(debtors[debtorIndex].name, creditors[creditorIndex].name, Round2(amount))];
      debts := debts[debtorIndex := debts[debtorIndex] + amount];
      credits := credits[creditorIndex := credits[creditorIndex] - amount];
      LoopStepIsAdvance(l, amount, debts, credits);
      var debtorSettled := Abs(debts[debtorIndex]) < Tolerance;
      var creditorSettled := Abs(credits[creditorIndex]) < Tolerance;
      if debtorSettled {
        debtorIndex := debtorIndex + 1;
      }
      if creditorSettled {
        creditorIndex := creditorIndex + 1;
      }
      assert Ledger(debts, credits, debtorIndex, creditorIndex) == Advance(l);
      ghost var step := Step(l.di, l.ci, amount);
      PlanStep(l, done, plan);
      StepsWithinSnoc(done, step, |debtors|, |creditors|);
      EmitSnoc(debtors, creditors, done, step);
      done := done + [step];
    }
  }
}
