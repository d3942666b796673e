/** Exact-arithmetic helpers for money amounts: absolute value, minimum, the
    settlement tolerance and the two-decimal rounding applied to emitted
    transfer amounts. */
module Amounts {

  /** A party whose remaining balance is below this magnitude counts as settled
      (the `< 0.01` tests of the greedy loop). */
  const Tolerance: real := 0.01

  function Abs(x: real): (r: real)
    ensures r >= 0.0
    ensures r == x || r == -x
  {
    if x < 0.0 then -x else x
  }

  function Min(x: real, y: real): (r: real)
    ensures r <= x && r <= y
    ensures r == x || r == y
  {
    if x <= y then x else y
  }

  predicate Settled(x: real)
    ensures Settled(x) <==> -Tolerance < x < Tolerance
  {
    Abs(x) < Tolerance
  }

  /** True when `x` is a whole number of hundredths. */
  predicate WholeCents(x: real) {
    (x * 100.0).Floor as real == x * 100.0
  }

  lemma WholeCentsOf(n: int)
    ensures WholeCents(n as real / 100.0)
  {
    assert (n as real / 100.0) * 100.0 == n as real;
  }

  /** Rounds a non-negative amount to the nearest hundredth, picking the larger
      candidate on a tie, as `toFixed(2)` does. */
  function RoundHundredths(x: real): (r: real)
    requires x >= 0.0
    ensures r >= 0.0
    ensures x - 0.005 < r <= x + 0.005
    ensures WholeCents(r)
  {
    var n := (x * 100.0 + 0.5).Floor;
    assert n as real <= x * 100.0 + 0.5 < n as real + 1.0;
    WholeCentsOf(n);
    (n as real) / 100.0
  }

  /** `Number(x.toFixed(2))`: rounding to two decimals, half away from zero. */
  function Round2(x: real): (r: real)
    ensures x - 0.005 <= r <= x + 0.005
    ensures WholeCents(r)
    ensures x >= 0.0 ==> r >= 0.0
    ensures x <= 0.0 ==> r <= 0.0
    ensures x >= 0.0 ==> x - 0.005 < r
    ensures x <= 0.0 ==> r < x + 0.005
  {
    if x < 0.0 then
      var m := RoundHundredths(-x);
      var n := (m * 100.0).Floor;
      assert m == n as real / 100.0;
      WholeCentsOf(-n);
      assert -m == (-n) as real / 100.0;
      -m
    else RoundHundredths(x)
  }

  /** An amount that is already a whole number of cents is left unchanged. */
  lemma Round2Cents(n: int)
    ensures Round2(n as real / 100.0) == n as real / 100.0
  {
    var m := if n < 0 then -n else n;
    var x := m as real / 100.0;
    assert x * 100.0 + 0.5 == m as real + 0.5;
    assert (x * 100.0 + 0.5).Floor == m;
    if n < 0 {
      assert n as real / 100.0 == -x;
    }
  }

  /** The sum of a sequence of amounts, folded from the left as `reduce` does. */
  function Sum(xs: seq<real>): real {
    if xs == [] then 0.0 else Sum(xs[..|xs| - 1]) + xs[|xs| - 1]
  }

  /** Subtracting the same amount from every element lowers the sum by that
      amount once per element. */
  lemma {:induction false} SumShifted(xs: seq<real>, m: real, ys: seq<real>)
    requires |ys| == |xs|
    requires forall k :: 0 <= k < |xs| ==> ys[k] == xs[k] - m
    ensures Sum(ys) == Sum(xs) - (|xs| as real) * m
  {
    if xs != [] {
      SumShifted(xs[..|xs| - 1], m, ys[..|ys| - 1]);
    }
  }

  /** A sequence of equal amounts sums to its length times that amount. */
  lemma {:induction false} SumConstant(xs: seq<real>, v: real)
    requires forall k :: 0 <= k < |xs| ==> xs[k] == v
    ensures Sum(xs) == (|xs| as real) * v
  {
    if xs != [] {
      SumConstant(xs[..|xs| - 1], v);
    }
  }

  lemma {:induction false} SumCons(x: real, xs: seq<real>)
    ensures Sum([x] + xs) == x + Sum(xs)
  {
    if xs != [] {
      var ys := [x] + xs;
      assert ys[..|ys| - 1] == [x] + xs[..|xs| - 1];
      SumCons(x, xs[..|xs| - 1]);
    }
  }

  /** Replacing one element changes the sum by the difference. */
  lemma {:induction false} SumUpdate(xs: seq<real>, k: int, v: real)
    requires 0 <= k < |xs|
    ensures Sum(xs[k := v]) == Sum(xs) - xs[k] + v
  {
    var ys := xs[k := v];
    if k < |xs| - 1 {
      assert ys[..|ys| - 1] == xs[..|xs| - 1][k := v];
      SumUpdate(xs[..|xs| - 1], k, v);
    } else {
      assert ys[..|ys| - 1] == xs[..|xs| - 1];
    }
  }

  /** The tolerance once for each of `n` parties. */
  function Slack(n: nat): real {
    if n == 0 then 0.0 else Slack(n - 1) + Tolerance
  }

  /** More parties allow more slack. */
  lemma {:induction false} SlackGrows(m: nat, n: nat)
    requires m <= n
    ensures 0.0 <= Slack(m) <= Slack(n)
  {
    if m < n {
      SlackGrows(m, n - 1);
    } else if m > 0 {
      SlackGrows(m - 1, m - 1);
    }
  }

  /** The slack for `n` parties is `n` cents. */
  lemma {:induction false} SlackIsCents(n: nat)
    ensures Slack(n) == n as real / 100.0
  {
    if n > 0 {
      SlackIsCents(n - 1);
    }
  }

  /** A sum of amounts each settled and not positive is at least minus the
      tolerance per element. */
  lemma {:induction false} SumAtLeast(xs: seq<real>)
    requires forall k :: 0 <= k < |xs| ==> -Tolerance < xs[k] <= 0.0
    ensures -Slack(|xs|) <= Sum(xs) <= 0.0
  {
    if xs != [] {
      SumAtLeast(xs[..|xs| - 1]);
    }
  }

  /** Each of a sequence of non-negative amounts is at most their sum. */
  lemma {:induction false} ElementAtMostSum(xs: seq<real>)
    requires forall k :: 0 <= k < |xs| ==> xs[k] >= 0.0
    ensures forall k :: 0 <= k < |xs| ==> xs[k] <= Sum(xs)
    ensures Sum(xs) >= 0.0
  {
    if xs != [] {
      ElementAtMostSum(xs[..|xs| - 1]);
    }
  }

  /** A sum of amounts each settled and not negative is at most the
      tolerance per element. */
  lemma {:induction false} SumAtMost(xs: seq<real>)
    requires forall k :: 0 <= k < |xs| ==> 0.0 <= xs[k] < Tolerance
    ensures 0.0 <= Sum(xs) <= Slack(|xs|)
  {
    if xs != [] {
      SumAtMost(xs[..|xs| - 1]);
    }
  }

  /** Each of a sequence of non-positive amounts is at least their sum. */
  lemma {:induction false} ElementAtLeastSum(xs: seq<real>)
    requires forall k :: 0 <= k < |xs| ==> xs[k] <= 0.0
    ensures forall k :: 0 <= k < |xs| ==> xs[k] >= Sum(xs)
    ensures Sum(xs) <= 0.0
  {
    if xs != [] {
      ElementAtLeastSum(xs[..|xs| - 1]);
    }
  }
}
