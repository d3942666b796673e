/** The first half of the split: each person's contribution, the fair share
    (the mean contribution) and every person's balance against it. */
module Shares {
  import opened Amounts
  import opened People

  /** A person's name with the balance still to settle: positive when the
      person paid more than the fair share, negative when less. */
  datatype Entry = Entry(name: string, balance: real)

  function Contributions(people: seq<Person>): (r: seq<real>)
    ensures |r| == |people|
    ensures forall k :: 0 <= k < |people| ==> r[k] == Contribution(people[k])
  {
    seq(|people|, k requires 0 <= k < |people| => Contribution(people[k]))
  }

  /** Everything the group paid; a person without an amount adds nothing. */
  function Total(people: seq<Person>): (r: real)
    ensures people == [] ==> r == 0.0
    ensures AllNonNegative(people) ==>
      r >= 0.0 && forall k :: 0 <= k < |people| ==> Contribution(people[k]) <= r
  {
    var xs := Contributions(people);
    if AllNonNegative(people) then
      ElementAtMostSum(xs);
      Sum(xs)
    else Sum(xs)
  }

  /** The total is accumulated person by person, as the fold does: a person
      added at the end adds exactly their contribution. */
  lemma TotalAppend(people: seq<Person>, p: Person)
    ensures Total(people + [p]) == Total(people) + Contribution(p)
  {
    var xs := Contributions(people + [p]);
    assert xs[..|xs| - 1] == Contributions(people);
  }

  /** The mean contribution: what every person should end up paying. Paid by
      everyone, it makes up the total exactly. */
  function FairShare(people: seq<Person>): (r: real)
    requires |people| > 0
    ensures r * (|people| as real) == Total(people)
  {
    MeanTimesCount(Total(people), |people| as real);
    Total(people) / (|people| as real)
  }

  /** One entry per person, in list order, carrying the person's name and the
      difference between what they paid and the fair share. */
  function Balances(people: seq<Person>): (r: seq<Entry>)
    ensures |r| == |people|
    ensures forall k :: 0 <= k < |people| ==> r[k].name == people[k].name
    ensures forall i, j :: 0 <= i < |people| && 0 <= j < |people| ==>
      r[i].balance - r[j].balance == Contribution(people[i]) - Contribution(people[j])
  {
    seq(|people|, k requires 0 <= k < |people| =>
      Entry(people[k].name, Contribution(people[k]) - FairShare(people)))
  }

  function Values(entries: seq<Entry>): (r: seq<real>)
    ensures |r| == |entries|
    ensures forall k :: 0 <= k < |entries| ==> r[k] == entries[k].balance
  {
    seq(|entries|, k requires 0 <= k < |entries| => entries[k].balance)
  }

  /** The balances cancel out: what the over-payers are owed is exactly what
      the under-payers owe. */
  lemma BalancesSumToZero(people: seq<Person>)
    ensures Sum(Values(Balances(people))) == 0.0
  {
    if |people| > 0 {
      var n := |people| as real;
      var xs, ys, m := Contributions(people), Values(Balances(people)), FairShare(people);
      forall k | 0 <= k < |xs| ensures ys[k] == xs[k] - m {
        assert ys[k] == Balances(people)[k].balance;
      }
      SumShifted(xs, m, ys);
      MeanTimesCount(Sum(xs), n);
    }
  }

  /** The mean of a total over `n` parties, taken `n` times, is the total. */
  lemma MeanTimesCount(total: real, n: real)
    requires n > 0.0
    ensures n * (total / n) == total
  {
  }

  /** When everyone paid the same (in particular when there is one person),
      the fair share is that amount and every balance is zero. */
  lemma {:induction false} EqualContributionsZeroBalances(people: seq<Person>, v: real)
    requires |people| > 0
    requires forall k :: 0 <= k < |people| ==> Contribution(people[k]) == v
    ensures FairShare(people) == v
    ensures forall k :: 0 <= k < |people| ==> Balances(people)[k].balance == 0.0
  {
    var n := |people| as real;
    SumConstant(Contributions(people), v);
    assert Total(people) == n * v;
    ProductOverCount(v, n);
  }

  /** Dividing `n` equal shares by `n` gives back one share. */
  lemma ProductOverCount(v: real, n: real)
    requires n > 0.0
    ensures (n * v) / n == v
  {
  }

  /** The balances are the only entries that carry the people's names, differ
      from one another exactly as the contributions do and cancel out. */
  lemma BalancesUnique(people: seq<Person>, es: seq<Entry>)
    requires |es| == |people|
    requires forall k :: 0 <= k < |people| ==> es[k].name == people[k].name
    requires forall i, j :: 0 <= i < |people| && 0 <= j < |people| ==>
      es[i].balance - es[j].balance == Contribution(people[i]) - Contribution(people[j])
    requires Sum(Values(es)) == 0.0
    ensures es == Balances(people)
  {
    var bs := Balances(people);
    if |people| > 0 {
      var d := bs[0].balance - es[0].balance;
      var xs, ys := Values(bs), Values(es);
      forall k | 0 <= k < |xs| ensures ys[k] == xs[k] - d {
        assert ys[k] - ys[0] == xs[k] - xs[0];
      }
      SumShifted(xs, d, ys);
      BalancesSumToZero(people);
      NoShiftWhenBothCancel(|xs| as real, d);
      forall k | 0 <= k < |es| ensures es[k] == bs[k] {
        assert es[k].balance == bs[k].balance;
      }
    }
  }

  /** A shift applied to each of `n` parties that leaves a zero total
      unchanged is no shift. */
  lemma NoShiftWhenBothCancel(n: real, d: real)
    requires n > 0.0
    requires 0.0 - n * d == 0.0
    ensures d == 0.0
  {
  }
}
