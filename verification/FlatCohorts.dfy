/** A cohort of every size: names that neither move nor pay. It meets the conditions of the run theorems, and at seven
    names a leg it is the cohort on which the two ledgers part by more than the tolerance. */
module FlatCohorts {
  import opened Books
  import opened ComponentVerdict
  import opened Closings
  import opened CohortRun
  import opened DistributionCounts
  import opened CohortReconciliation
  import CohortSizes
  import FeeDrift
  import ReferenceDaily

  /** Names told apart by their length. */
  function Name(i: nat): (s: string)
    ensures |s| == i + 1
  {
    seq(i + 1, _ => 'A')
  }

  const Days: seq<int> := [0, 63]

  function FlatEntries(k: nat): (r: seq<Entry>)
    ensures |r| == 2 * k
    ensures forall i :: 0 <= i < 2 * k ==>
              r[i] == Entry(Name(i), Name(i), if i < k then Short else Long, CohortSizes.PathTo(1.0))
  {
    seq(2 * k, i requires 0 <= i < 2 * k =>
      Entry(Name(i), Name(i), if i < k then Short else Long, CohortSizes.PathTo(1.0)))
  }

  function FlatPrices(n: nat): Prices {
    if n == 0 then map[] else FlatPrices(n - 1)[(Name(n - 1), 0) := 1.0][(Name(n - 1), 63) := 1.0]
  }

  lemma {:induction false} PricedOnBoth(n: nat, i: nat)
    requires i < n
    ensures (Name(i), 0) in FlatPrices(n) && FlatPrices(n)[(Name(i), 0)] == 1.0
    ensures (Name(i), 63) in FlatPrices(n) && FlatPrices(n)[(Name(i), 63)] == 1.0
  {
    if i < n - 1 {
      PricedOnBoth(n - 1, i);
    }
  }

  lemma {:induction false} FlatPricesPositive(n: nat)
    ensures PositivePrices(FlatPrices(n))
  {
    if n > 0 {
      FlatPricesPositive(n - 1);
    }
  }

  lemma FlatPathMatches(k: nat, i: nat)
    requires i < 2 * k
    ensures PathMatches(FlatEntries(k)[i], Days, FlatPrices(2 * k))
  {
    PricedOnBoth(2 * k, i);
    CohortSizes.PathToAccepted(1.0);
  }

  lemma FlatPathsPriced(k: nat)
    requires k > 0
    ensures ReferenceDaily.PathsPriced(SelectedOf(FlatEntries(k), k), Days, FlatPrices(2 * k))
  {
    var names := SelectedOf(FlatEntries(k), k);
    forall i, t | 0 <= i < |names| && 0 <= t < |Days|
      ensures (names[i].ticker, Days[t]) in FlatPrices(2 * k) && FlatPrices(2 * k)[(names[i].ticker, Days[t])] > 0.0
    {
      PricedOnBoth(2 * k, i);
      assert names[i].ticker == Name(i);
    }
  }

  lemma FlatNamesDistinct(k: nat)
    ensures forall i, j :: 0 <= i < j < 2 * k ==>
              FlatEntries(k)[i].ticker != FlatEntries(k)[j].ticker
                  && FlatEntries(k)[i].mTicker != FlatEntries(k)[j].mTicker
  {
    forall i, j | 0 <= i < j < 2 * k ensures Name(i) != Name(j) {
      assert |Name(i)| != |Name(j)|;
    }
  }

  /** The flat cohort meets the conditions of every theorem about matching cohorts. */
  lemma {:induction false} FlatMatches(k: nat)
    requires k > 0
    ensures CohortMatches(FlatEntries(k), k, Days, FlatPrices(2 * k)) && Distributions(FlatEntries(k)) == 0
    ensures PositivePrices(FlatPrices(2 * k)) && InSessions(Days, Days, 0)
  {
    FlatPricesPositive(2 * k);
    FlatPathsPriced(k);
    FlatNamesDistinct(k);
    forall i | 0 <= i < |FlatEntries(k)| ensures PathMatches(FlatEntries(k)[i], Days, FlatPrices(2 * k)) {
      FlatPathMatches(k, i);
    }
    NothingPaid(FlatEntries(k));
    assert Days == Days[0..2];
  }

  lemma {:induction false} NothingPaid(entries: seq<Entry>)
    requires forall i :: 0 <= i < |entries| ==> entries[i].path.distributions == []
    ensures Distributions(entries) == 0
  {
    if entries != [] {
      NothingPaid(entries[..|entries| - 1]);
    }
  }

  /** Up to a third of a million names per leg it can be replayed and reconciled from end to end. */
  lemma {:induction false} FlatReplayable(k: nat)
    requires 0 < k <= 333_333
    ensures Replayable(FlatEntries(k), k, Days, FlatPrices(2 * k), Days, 0)
  {
    FlatMatches(k);
    AccrualsAreCounted(FlatEntries(k), k, Days, FlatPrices(2 * k));
  }

  /** Where the fee rule fails the flat cohort is one on which two correct ledgers part. */
  lemma {:induction false} FlatFails(k: nat, order: (int, int) -> bool)
    requires k > 0 && !FeeDrift.FeeRule(k)
    ensures CohortMatches(FlatEntries(k), k, Days, FlatPrices(2 * k)) && Distributions(FlatEntries(k)) == 0
    ensures CohortFindings(ExactBook(FlatEntries(k), k, Days, FlatPrices(2 * k)), order) != []
  {
    FlatMatches(k);
    VerdictForeseen(FlatEntries(k), k, Days, FlatPrices(2 * k), order);
  }

  /** Seven flat names a leg: two correct ledgers, and the comparer reports a difference. */
  lemma {:induction false} SevenFlatNamesFail(order: (int, int) -> bool)
    ensures CohortMatches(FlatEntries(7), 7, Days, FlatPrices(14))
    ensures CohortFindings(ExactBook(FlatEntries(7), 7, Days, FlatPrices(14)), order) != []
  {
    assert FeeDrift.RateQuanta % 7 == 4;
    FlatFails(7, order);
  }
}
