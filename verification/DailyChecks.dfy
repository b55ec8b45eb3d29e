/** When the primary loop's own 1e-12 checks can and cannot fire. */
module DailyChecks {
  import opened Rounding
  import opened Sums
  import opened Books
  import opened BookLaws
  import opened PrimaryDaily

  /** Price moves the loop loses because the name's ticker was already handled in the same session. */
  function RepeatedMoves(b: Book, t: int): int -> real {
    i => if SeenBefore(b, i, i) then b.PriceMove(i, t) else 0.0
  }

  /** The contributions before serialization. */
  function ExactContributions(b: Book, t: int): int -> real {
    i => ChainedPnl(b, i, t) + b.AccruedOn(i, t) - b.FeeOn(i, t)
  }

  /** What the exact contributions miss of the session's P&L is the repeated tickers' price moves, nothing else. */
  lemma GapIsRepeatedMoves(b: Book, t: nat)
    requires t < |b.path| && 1 < |b.path|
    ensures b.Nav(0, t) - b.Nav(0, t - 1) - SumTo(|b.items|, ExactContributions(b, t))
            == SumTo(|b.items|, RepeatedMoves(b, t))
  {
    ContributionsAddUp(b, 0, t);
    SumOfDifferences(|b.items|, NetPnls(b, 0, t), RepeatedMoves(b, t), ExactContributions(b, t));
  }

  /** Half a quantum for each of n written contributions. */
  function ContributionSlack(n: nat): real { n as real * 0.000_000_000_000_000_000_5 }

  lemma {:induction false} HalfQuantumEach(n: nat, f: int -> real, g: int -> real)
    requires forall i :: 0 <= i < n ==> Abs(f(i) - g(i)) <= 0.000_000_000_000_000_000_5
    ensures Abs(SumTo(n, f) - SumTo(n, g)) <= ContributionSlack(n)
  {
    SumWithin(n, f, g, 0.000_000_000_000_000_000_5);
  }

  /** Serializing the contributions moves their sum by at most half a quantum per name. */
  lemma {:induction false} ContributionRounding(b: Book, t: nat)
    requires t < |b.path|
    ensures Abs(SumTo(|b.items|, Contributions(b, t)) - SumTo(|b.items|, ExactContributions(b, t)))
            <= ContributionSlack(|b.items|)
  {
    var f, g := Contributions(b, t), ExactContributions(b, t);
    forall i | 0 <= i < |b.items| ensures Abs(f(i) - g(i)) <= 0.000_000_000_000_000_000_5 {
      OneContribution(b, t, i);
    }
    HalfQuantumEach(|b.items|, f, g);
  }

  lemma {:induction false} OneContribution(b: Book, t: nat, i: nat)
    requires t < |b.path| && i < |b.items|
    ensures Abs(Contributions(b, t)(i) - ExactContributions(b, t)(i)) <= 0.000_000_000_000_000_000_5
  {
    MoneyError(ExactContributions(b, t)(i));
    assert PrimaryName(b, i, t).netPnl == ExactContributions(b, t)(i);
  }

  /** The daily check follows the repeated tickers' price moves: it passes when they stay below the tolerance by the
      rounding of the contributions, fires when they exceed it by as much, and only that band is left to rounding. */
  lemma DailyCheckFollowsRepeats(b: Book, t: nat)
    requires t < |b.path| && 1 < |b.path|
    ensures var moves, slack := Abs(SumTo(|b.items|, RepeatedMoves(b, t))), ContributionSlack(|b.items|);
            && (moves <= Tolerance - slack ==> DailyIdentityHolds(b, t))
            && (moves > Tolerance + slack ==> !DailyIdentityHolds(b, t))
  {
    GapIsRepeatedMoves(b, t);
    ContributionRounding(b, t);
  }

  /** With distinct tickers the daily check cannot fire at any session of any price path. */
  lemma {:induction false} DistinctTickersPass(b: Book, t: nat)
    requires b.DistinctTickers() && t <= |b.path| && 1 < |b.path| && |b.items| <= 2_000_000
    ensures IdentitiesThrough(b, t)
  {
    if t > 0 {
      DistinctTickersPass(b, t - 1);
      NothingRepeats(b, t - 1);
      SlackFits(|b.items|);
      DailyCheckFollowsRepeats(b, t - 1);
    }
  }

  lemma {:induction false} NothingRepeats(b: Book, t: nat)
    requires b.DistinctTickers()
    ensures SumTo(|b.items|, RepeatedMoves(b, t)) == 0.0
  {
    var lost := RepeatedMoves(b, t);
    forall i | 0 <= i < |b.items| ensures lost(i) == 0.0 {
      DistinctIsUnseen(b, i, i);
    }
    SumConstant(|b.items|, 0.0, lost);
  }

  /** Up to two million names the rounding stays within the tolerance. */
  lemma SlackFits(n: nat)
    requires n <= 2_000_000
    ensures 0.0 <= Tolerance - ContributionSlack(n)
  {
    assert n as real <= 2_000_000.0;
  }

  /** Distinctness is needed: one ticker held long and short loses its second price move. */
  lemma RepeatedTickerFires()
    ensures exists b: Book :: |b.items| == 2 && |b.path| == 2 && b.AllPriced() && !b.DistinctTickers()
                              && b.DistinctNames() && !DailyIdentityHolds(b, 1)
  {
    var long := Item("A", "M1", Long, 1.0, 1.0, 0.003, 0.003, []);
    var short := Item("A", "M2", Short, -1.0, -1.0, 0.003, 0.003, []);
    var b := Book([long, short], [0, 1], map[("A", 0) := 1.0, ("A", 1) := 3.0]);
    assert b.Priced(0, 0) && b.Priced(0, 1) && b.Priced(1, 0) && b.Priced(1, 1);
    assert !SeenBefore(b, 0, 0) && SeenBefore(b, 1, 1);
    assert b.PriceMove(1, 1) == -2.0;
    var f := RepeatedMoves(b, 1);
    assert SumTo(2, f) == SumTo(1, f) + f(1) == SumTo(0, f) + f(0) + f(1);
    DailyCheckFollowsRepeats(b, 1);
    assert b.items[0].ticker == b.items[1].ticker;
  }
}
