/** Every distribution of a matching cohort is accrued on exactly one session, so counting what the ledgers accrue is
    counting the distributions. */
module DistributionCounts {
  import opened Sums
  import opened Books
  import opened Divergence
  import opened Closings
  import ComponentTolerance
  import NameVerdict

  /** The distributions of a cohort, over all its names. */
  function Distributions(entries: seq<Entry>): nat {
    if entries == [] then 0
    else Distributions(entries[..|entries| - 1]) + |entries[|entries| - 1].path.distributions|
  }

  /** The accruals dated on one of the first n days. */
  function RunningCount(accruals: seq<Accrual>, days: seq<int>, n: nat): nat
    requires n <= |days|
  {
    if n == 0 then 0 else RunningCount(accruals, days, n - 1) + |DatedKeys(accruals, days[n - 1])|
  }

  lemma {:induction false} CountStep(accruals: seq<Accrual>, days: seq<int>, n: nat)
    requires n <= |days| && accruals != [] && Increasing(days)
    ensures var front, last := accruals[..|accruals| - 1], accruals[|accruals| - 1];
            RunningCount(accruals, days, n) == RunningCount(front, days, n) + if last.date in days[..n] then 1 else 0
  {
    if n > 0 {
      CountStep(accruals, days, n - 1);
      assert days[..n] == days[..n - 1] + [days[n - 1]];
      assert days[n - 1] !in days[..n - 1];
    }
  }

  lemma {:induction false} NothingCounted(days: seq<int>, n: nat)
    requires n <= |days|
    ensures RunningCount([], days, n) == 0
  {
    if n > 0 {
      NothingCounted(days, n - 1);
    }
  }

  lemma {:induction false} CountIsAll(accruals: seq<Accrual>, days: seq<int>)
    requires Increasing(days) && forall i :: 0 <= i < |accruals| ==> accruals[i].date in days
    ensures RunningCount(accruals, days, |days|) == |accruals|
  {
    if accruals == [] {
      NothingCounted(days, |days|);
    } else {
      CountStep(accruals, days, |days|);
      CountIsAll(accruals[..|accruals| - 1], days);
      assert days[..|days|] == days;
    }
  }

  lemma {:induction false} AppliedIsRunning(e: Book, i: nat, t: nat)
    requires i < |e.items| && t < |e.path|
    ensures AppliedTo(e, i, t) == RunningCount(e.items[i].accruals, e.path, t + 1)
  {
    if t > 0 {
      AppliedIsRunning(e, i, t - 1);
    } else {
      assert AppliedTo(e, i, -1) == 0;
    }
  }

  /** By exit a name has accrued each of its distributions once. */
  lemma {:induction false} AppliedIsCount(entries: seq<Entry>, k: int, days: seq<int>, prices: Prices, i: nat)
    requires CohortMatches(entries, k, days, prices) && i < |entries|
    ensures var e := ExactBook(entries, k, days, prices);
            AppliedTo(e, i, e.Last()) == |entries[i].path.distributions|
  {
    var e := ExactBook(entries, k, days, prices);
    assert PathMatches(entries[i], days, prices);
    forall j | 0 <= j < |e.items[i].accruals| ensures e.items[i].accruals[j].date in days {
      assert e.items[i].accruals[j].date == entries[i].path.distributions[j].date;
    }
    AppliedIsRunning(e, i, e.Last());
    CountIsAll(e.items[i].accruals, days);
  }

  function Counts(entries: seq<Entry>): int -> real {
    i => if 0 <= i < |entries| then |entries[i].path.distributions| as real else 0.0
  }

  lemma {:induction false} CountsAddUp(entries: seq<Entry>, n: nat)
    requires n <= |entries|
    ensures SumTo(n, Counts(entries)) == Distributions(entries[..n]) as real
  {
    if n > 0 {
      CountsAddUp(entries, n - 1);
      assert entries[..n][..n - 1] == entries[..n - 1];
    }
  }

  /** And the cohort all of them. */
  lemma {:induction false} AccrualsAreCounted(entries: seq<Entry>, k: int, days: seq<int>, prices: Prices)
    requires CohortMatches(entries, k, days, prices)
    ensures var e := ExactBook(entries, k, days, prices); Accruals(e, e.Last()) == Distributions(entries) as real
  {
    var e := ExactBook(entries, k, days, prices);
    var f, g := AppliedCounts(e, e.Last()), Counts(entries);
    forall i | 0 <= i < |entries| ensures f(i) == g(i) {
      AppliedIsCount(entries, k, days, prices, i);
    }
    SumCongruent(|entries|, f, g);
    CountsAddUp(entries, |entries|);
    assert entries[..|entries|] == entries;
  }

  lemma {:induction false} AccrualsGrow(e: Book, t: nat)
    requires t < |e.path|
    ensures Accruals(e, t) <= Accruals(e, e.Last())
  {
    var f, g := AppliedCounts(e, t), AppliedCounts(e, e.Last());
    forall i | 0 <= i < |e.items| ensures f(i) <= g(i) {
      NameVerdict.AppliedMonotone(e, i, t, e.Last());
    }
    ComponentTolerance.CountsMonotone(|e.items|, f, g);
  }
}
