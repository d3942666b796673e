/** The greedy settlement loop: two cursors walk the debtor and creditor
    lists, and each step moves as much as both current parties allow. */
module Matching {
  import opened Amounts

  /** One transfer of the plan: from the debtor at position `debtor` of the
      debtor list to the creditor at position `creditor` of the creditor
      list, of an amount not yet rounded. */
  datatype Step = Step(debtor: nat, creditor: nat, amount: real)

  /** The loop's state: every party's remaining balance (debts negative,
      credits positive) and the two cursors. */
  datatype Ledger = Ledger(debts: seq<real>, credits: seq<real>, di: nat, ci: nat) {

    /** Both cursors are still inside their lists. */
    predicate Running() {
      di < |debts| && ci < |credits|
    }

    /** How many parties the cursors have not yet moved past. */
    function Pending(): nat {
      (if di < |debts| then |debts| - di else 0) + (if ci < |credits| then |credits| - ci else 0)
    }

    /** The cursors stand on parties that really owe and are owed. */
    predicate Open() {
      && (forall k :: di <= k < |debts| ==> debts[k] < 0.0)
      && (forall k :: ci <= k < |credits| ==> credits[k] > 0.0)
    }
  }

  /** The amount the current step moves: the smaller of the current debt and
      the current credit. */
  function Amount(l: Ledger): (r: real)
    requires l.Running()
    ensures r <= -l.debts[l.di] && r <= l.credits[l.ci]
    ensures r == -l.debts[l.di] || r == l.credits[l.ci]
    ensures l.Open() ==> r > 0.0
  {
    Min(-l.debts[l.di], l.credits[l.ci])
  }

  /** The state after one step: the amount is taken off both current
      parties, and each cursor moves on once its party is settled. Paying
      the smaller side clears that side exactly, so at least one cursor
      moves. */
  function Advance(l: Ledger): (r: Ledger)
    requires l.Running()
    ensures |r.debts| == |l.debts| && |r.credits| == |l.credits|
    ensures forall k :: 0 <= k < |l.debts| ==>
              r.debts[k] == l.debts[k] + (if k == l.di then Amount(l) else 0.0)
    ensures forall k :: 0 <= k < |l.credits| ==>
              r.credits[k] == l.credits[k] - (if k == l.ci then Amount(l) else 0.0)
    ensures r.di == if Settled(r.debts[l.di]) then l.di + 1 else l.di
    ensures r.ci == if Settled(r.credits[l.ci]) then l.ci + 1 else l.ci
    ensures r.Pending() < l.Pending()
    ensures l.Open() ==> r.Open()
  {
    var amount := Amount(l);
    var debts := l.debts[l.di := l.debts[l.di] + amount];
    var credits := l.credits[l.ci := l.credits[l.ci] - amount];
    var di := if Settled(debts[l.di]) then l.di + 1 else l.di;
    var ci := if Settled(credits[l.ci]) then l.ci + 1 else l.ci;
    Ledger(debts, credits, di, ci)
  }

  /** Under exact arithmetic a step pays off the smaller of the two current
      balances completely, so that party's cursor moves on; when the two are
      equal both move. */
  lemma StepClearsSmallerSide(l: Ledger)
    requires l.Running()
    ensures -l.debts[l.di] <= l.credits[l.ci] ==>
              Advance(l).debts[l.di] == 0.0 && Advance(l).di == l.di + 1
    ensures l.credits[l.ci] <= -l.debts[l.di] ==>
              Advance(l).credits[l.ci] == 0.0 && Advance(l).ci == l.ci + 1
  {
  }

  /** The steps the loop emits from state `l`. */
  function Match(l: Ledger): (r: seq<Step>)
    ensures !l.Running() ==> r == []
    ensures l.Running() ==> |r| < l.Pending()
    ensures forall n :: 0 <= n < |r| ==>
              l.di <= r[n].debtor < |l.debts| && l.ci <= r[n].creditor < |l.credits|
    decreases l.Pending()
  {
    if !l.Running() then []
    else
      var rest := Match(Advance(l));
      var r := [Step(l.di, l.ci, Amount(l))] + rest;
      assert forall n :: 1 <= n < |r| ==> r[n] == rest[n - 1];
      r
  }

  /** Neither cursor ever moves back: along the plan the debtor positions
      and the creditor positions never decrease. */
  lemma {:induction false} MatchCursorsMonotone(l: Ledger)
    ensures forall a, b :: 0 <= a < b < |Match(l)| ==>
              Match(l)[a].debtor <= Match(l)[b].debtor && Match(l)[a].creditor <= Match(l)[b].creditor
    decreases l.Pending()
  {
    if l.Running() {
      var r := Match(l);
      var rest := Match(Advance(l));
      MatchUnfold(l);
      MatchCursorsMonotone(Advance(l));
      forall a, b | 0 <= a < b < |r|
        ensures r[a].debtor <= r[b].debtor && r[a].creditor <= r[b].creditor
      {
        assert r[b] == rest[b - 1];
        if a > 0 {
          assert r[a] == rest[a - 1];
        }
      }
    }
  }

  lemma MatchUnfold(l: Ledger)
    requires l.Running()
    ensures Match(l) == [Step(l.di, l.ci, Amount(l))] + Match(Advance(l))
  {
  }

  /** What the debtor at position `k` has paid across `steps`. */
  function SentBy(steps: seq<Step>, k: nat): real {
    if steps == [] then 0.0
    else (if steps[0].debtor == k then steps[0].amount else 0.0) + SentBy(steps[1..], k)
  }

  /** What the creditor at position `k` has received across `steps`. */
  function ReceivedBy(steps: seq<Step>, k: nat): real {
    if steps == [] then 0.0
    else (if steps[0].creditor == k then steps[0].amount else 0.0) + ReceivedBy(steps[1..], k)
  }

  lemma {:induction false} SentByAppend(a: seq<Step>, b: seq<Step>, k: nat)
    ensures SentBy(a + b, k) == SentBy(a, k) + SentBy(b, k)
    ensures ReceivedBy(a + b, k) == ReceivedBy(a, k) + ReceivedBy(b, k)
  {
    if a == [] {
      assert a + b == b;
    } else {
      assert (a + b)[1..] == a[1..] + b;
      SentByAppend(a[1..], b, k);
    }
  }

  /** A party no step mentions has sent and received nothing. */
  lemma {:induction false} SentByAbsent(steps: seq<Step>, k: nat)
    ensures (forall n :: 0 <= n < |steps| ==> steps[n].debtor != k) ==> SentBy(steps, k) == 0.0
    ensures (forall n :: 0 <= n < |steps| ==> steps[n].creditor != k) ==> ReceivedBy(steps, k) == 0.0
  {
    if steps != [] {
      SentByAbsent(steps[1..], k);
    }
  }

  /** Each step of `steps` names parties of the two lists and pays the
      smaller of what its debtor still owes and what its creditor is still
      owed, both counted from the balances `debts` and `credits` less the
      earlier steps. */
  predicate PaysSmallerRemainder(debts: seq<real>, credits: seq<real>, steps: seq<Step>) {
    forall n :: 0 <= n < |steps| ==>
      && steps[n].debtor < |debts|
      && steps[n].creditor < |credits|
      && steps[n].amount == Min(-(debts[steps[n].debtor] + SentBy(steps[..n], steps[n].debtor)),
                                credits[steps[n].creditor] - ReceivedBy(steps[..n], steps[n].creditor))
  }

  /** Every step pays the smaller of what its debtor still owes and what its
      creditor is still owed, both counted from the balances at the start
      and the earlier steps of the plan. */
  lemma {:induction false} MatchPaysSmallerRemainder(l: Ledger)
    ensures PaysSmallerRemainder(l.debts, l.credits, Match(l))
    decreases l.Pending()
  {
    if l.Running() {
      MatchPaysSmallerRemainder(Advance(l));
      PaysSmallerRemainderStep(l, Match(Advance(l)));
    }
  }

  /** One step in front of a plan that respects the balances after that
      step gives a plan that respects the balances before it. */
  lemma PaysSmallerRemainderStep(l: Ledger, rest: seq<Step>)
    requires l.Running()
    requires PaysSmallerRemainder(Advance(l).debts, Advance(l).credits, rest)
    ensures PaysSmallerRemainder(l.debts, l.credits, [Step(l.di, l.ci, Amount(l))] + rest)
  {
    var next := Advance(l);
    var first := Step(l.di, l.ci, Amount(l));
    var r := [first] + rest;
    forall n | 0 <= n < |r|
      ensures r[n].debtor < |l.debts| && r[n].creditor < |l.credits|
      ensures r[n].amount == Min(-(l.debts[r[n].debtor] + SentBy(r[..n], r[n].debtor)),
                                 l.credits[r[n].creditor] - ReceivedBy(r[..n], r[n].creditor))
    {
      if n == 0 {
        assert r[..0] == [];
      } else {
        var s := rest[n - 1];
        var d, c := s.debtor, s.creditor;
        assert r[n] == s;
        assert r[..n] == [first] + rest[..n - 1];
        SentByAppend([first], rest[..n - 1], d);
        SentByAppend([first], rest[..n - 1], c);
        assert [first][1..] == [];
        assert SentBy([first], d) == (if d == l.di then Amount(l) else 0.0);
        assert ReceivedBy([first], c) == (if c == l.ci then Amount(l) else 0.0);
      }
    }
  }

  /** Every step moves a positive amount. */
  lemma {:induction false} MatchAmountsPositive(l: Ledger)
    requires l.Open()
    ensures forall n :: 0 <= n < |Match(l)| ==> Match(l)[n].amount > 0.0
    decreases l.Pending()
  {
    if l.Running() {
      var r := Match(l);
      var rest := Match(Advance(l));
      assert r == [Step(l.di, l.ci, Amount(l))] + rest;
      MatchAmountsPositive(Advance(l));
      assert forall m :: 0 <= m < |rest| ==> rest[m].amount > 0.0;
      forall n | 0 <= n < |r| ensures r[n].amount > 0.0 {
        if n > 0 {
          assert r[n] == rest[n - 1];
          assert rest[n - 1].amount > 0.0;
        } else {
          assert l.debts[l.di] < 0.0 && l.credits[l.ci] > 0.0;
          assert r[0].amount == Amount(l);
        }
      }
    }
  }

  /** No debtor pays more than it owed and no creditor receives more than it
      was owed. */
  lemma {:induction false} MatchWithinBalances(l: Ledger)
    requires l.Open()
    ensures forall k :: l.di <= k < |l.debts| ==> SentBy(Match(l), k) <= -l.debts[k]
    ensures forall k :: l.ci <= k < |l.credits| ==> ReceivedBy(Match(l), k) <= l.credits[k]
    decreases l.Pending()
  {
    if l.Running() {
      var r := Match(l);
      var next := Advance(l);
      var rest := Match(next);
      assert r == [Step(l.di, l.ci, Amount(l))] + rest;
      assert r[1..] == rest;
      MatchWithinBalances(next);
      SentByAbsent(rest, l.di);
      SentByAbsent(rest, l.ci);
      forall k | l.di <= k < |l.debts| ensures SentBy(r, k) <= -l.debts[k] {
        assert SentBy(r, k) == (if k == l.di then Amount(l) else 0.0) + SentBy(rest, k);
      }
      forall k | l.ci <= k < |l.credits| ensures ReceivedBy(r, k) <= l.credits[k] {
        assert ReceivedBy(r, k) == (if k == l.ci then Amount(l) else 0.0) + ReceivedBy(rest, k);
      }
    }
  }

  /** While a party is being paid off its remaining balance keeps its sign:
      before each of its steps the debtor still owes and the creditor is
      still owed, and the step never carries either past zero. */
  lemma RemainderKeepsSign(debts: seq<real>, credits: seq<real>, steps: seq<Step>)
    requires PaysSmallerRemainder(debts, credits, steps)
    requires forall n :: 0 <= n < |steps| ==> steps[n].amount > 0.0
    ensures forall n :: 0 <= n < |steps| ==>
              && debts[steps[n].debtor] + SentBy(steps[..n], steps[n].debtor) < 0.0
              && debts[steps[n].debtor] + SentBy(steps[..n + 1], steps[n].debtor) <= 0.0
    ensures forall n :: 0 <= n < |steps| ==>
              && credits[steps[n].creditor] - ReceivedBy(steps[..n], steps[n].creditor) > 0.0
              && credits[steps[n].creditor] - ReceivedBy(steps[..n + 1], steps[n].creditor) >= 0.0
  {
    forall n | 0 <= n < |steps|
      ensures SentBy(steps[..n + 1], steps[n].debtor) == SentBy(steps[..n], steps[n].debtor) + steps[n].amount
      ensures ReceivedBy(steps[..n + 1], steps[n].creditor) == ReceivedBy(steps[..n], steps[n].creditor) + steps[n].amount
    {
      assert steps[..n + 1] == steps[..n] + [steps[n]];
      SentByAppend(steps[..n], [steps[n]], steps[n].debtor);
      SentByAppend(steps[..n], [steps[n]], steps[n].creditor);
      assert [steps[n]][1..] == [];
    }
  }

  /** The state in which the loop stops. */
  function Final(l: Ledger): (r: Ledger)
    ensures !r.Running()
    ensures |r.debts| == |l.debts| && |r.credits| == |l.credits|
    decreases l.Pending()
  {
    if !l.Running() then l else Final(Advance(l))
  }

  /** The loop's invariant: nobody's remaining balance has crossed zero,
      the cursors stay within their lists, and every party a cursor has
      moved past is settled. */
  predicate Consistent(l: Ledger) {
    && l.Open()
    && l.di <= |l.debts| && l.ci <= |l.credits|
    && (forall k :: 0 <= k < |l.debts| ==> l.debts[k] <= 0.0)
    && (forall k :: 0 <= k < |l.credits| ==> l.credits[k] >= 0.0)
    && (forall k :: 0 <= k < l.di ==> Settled(l.debts[k]))
    && (forall k :: 0 <= k < l.ci ==> Settled(l.credits[k]))
  }

  lemma AdvanceKeepsConsistent(l: Ledger)
    requires l.Running() && Consistent(l)
    ensures Consistent(Advance(l))
  {
  }

  /** A step takes the same amount off the debts as off the credits. */
  lemma AdvanceKeepsTotal(l: Ledger)
    requires l.Running()
    ensures Sum(Advance(l).debts) + Sum(Advance(l).credits) == Sum(l.debts) + Sum(l.credits)
  {
    var amount := Amount(l);
    assert Advance(l).debts == l.debts[l.di := l.debts[l.di] + amount];
    assert Advance(l).credits == l.credits[l.ci := l.credits[l.ci] - amount];
    SumUpdate(l.debts, l.di, l.debts[l.di] + amount);
    SumUpdate(l.credits, l.ci, l.credits[l.ci] - amount);
  }

  /** The final state is what the plan leaves of the starting balances, the
      loop invariant still holds there, and the debts and credits still add
      up to what they did at the start. */
  lemma {:induction false} FinalState(l: Ledger)
    requires Consistent(l)
    ensures Consistent(Final(l))
    ensures Sum(Final(l).debts) + Sum(Final(l).credits) == Sum(l.debts) + Sum(l.credits)
    ensures forall k :: 0 <= k < |l.debts| ==> Final(l).debts[k] == l.debts[k] + SentBy(Match(l), k)
    ensures forall k :: 0 <= k < |l.credits| ==> Final(l).credits[k] == l.credits[k] - ReceivedBy(Match(l), k)
    decreases l.Pending()
  {
    if l.Running() {
      var next := Advance(l);
      AdvanceKeepsConsistent(l);
      AdvanceKeepsTotal(l);
      FinalState(next);
      MatchUnfold(l);
      forall k | 0 <= k < |l.debts| ensures Final(l).debts[k] == l.debts[k] + SentBy(Match(l), k) {
        assert SentBy(Match(l), k) == (if k == l.di then Amount(l) else 0.0) + SentBy(Match(next), k);
      }
      forall k | 0 <= k < |l.credits| ensures Final(l).credits[k] == l.credits[k] - ReceivedBy(Match(l), k) {
        assert ReceivedBy(Match(l), k) == (if k == l.ci then Amount(l) else 0.0) + ReceivedBy(Match(next), k);
      }
    } else {
      assert Match(l) == [];
    }
  }

  /** Once the loop has stopped with debts and credits cancelling out, one
      side is entirely settled, so what is left on the other side is at most
      a tolerance per settled party. */
  lemma StoppedNearlySettled(l: Ledger, n: nat)
    requires Consistent(l) && !l.Running()
    requires Sum(l.debts) + Sum(l.credits) == 0.0
    requires |l.debts| + |l.credits| <= n
    ensures forall k :: 0 <= k < |l.debts| ==> Abs(l.debts[k]) <= Slack(n)
    ensures forall k :: 0 <= k < |l.credits| ==> Abs(l.credits[k]) <= Slack(n)
  {
    ElementAtMostSum(l.credits);
    ElementAtLeastSum(l.debts);
    if l.di >= |l.debts| {
      SumAtLeast(l.debts);
      SlackGrows(|l.debts|, n);
    } else {
      SumAtMost(l.credits);
      SlackGrows(|l.credits|, n);
    }
  }

  /** After the payments of `plan`, every debt of `debts` is within `bound`
      of being paid off. */
  predicate DebtsWithin(debts: seq<real>, plan: seq<Step>, bound: real) {
    forall k :: 0 <= k < |debts| ==> Abs(debts[k] + SentBy(plan, k)) <= bound
  }

  /** After the payments of `plan`, every credit of `credits` is within
      `bound` of being received in full. */
  predicate CreditsWithin(credits: seq<real>, plan: seq<Step>, bound: real) {
    forall k :: 0 <= k < |credits| ==> Abs(credits[k] - ReceivedBy(plan, k)) <= bound
  }

  /** Bounds on what is left after `plan` are bounds on the balances less
      what `plan` pays. */
  lemma LeftWithin(debts: seq<real>, credits: seq<real>, left: Ledger, plan: seq<Step>, bound: real)
    requires |left.debts| == |debts| && |left.credits| == |credits|
    requires forall k :: 0 <= k < |debts| ==> left.debts[k] == debts[k] + SentBy(plan, k)
    requires forall k :: 0 <= k < |credits| ==> left.credits[k] == credits[k] - ReceivedBy(plan, k)
    requires forall k :: 0 <= k < |debts| ==> Abs(left.debts[k]) <= bound
    requires forall k :: 0 <= k < |credits| ==> Abs(left.credits[k]) <= bound
    ensures DebtsWithin(debts, plan, bound)
    ensures CreditsWithin(credits, plan, bound)
  {
  }

  /** Starting from balances that cancel out, the plan leaves every party
      with at most a tolerance per party of its balance unpaid (`n` is any
      count at least the number of parties). */
  lemma MatchEndsNearlySettled(l: Ledger, n: nat)
    requires Consistent(l)
    requires Sum(l.debts) + Sum(l.credits) == 0.0
    requires |l.debts| + |l.credits| <= n
    ensures DebtsWithin(l.debts, Match(l), Slack(n))
    ensures CreditsWithin(l.credits, Match(l), Slack(n))
  {
    FinalState(l);
    StoppedNearlySettled(Final(l), n);
    LeftWithin(l.debts, l.credits, Final(l), Match(l), Slack(n));
  }
}
