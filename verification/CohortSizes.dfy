/** For which cohort sizes the 128-quantum check can be relied on: exactly those of up to 129 names per leg. */
module CohortSizes {
  import opened Rounding
  import opened Residues
  import opened Sums
  import opened Books
  import opened ExecutionLedger
  import opened CohortLedger

  /** A frozen cohort of k names per leg, shorts first, all of its paths accepted by the builder. */
  predicate AcceptedCohort(picks: seq<Pick>, k: int) {
    && |picks| == 2 * k && Modelable(picks)
    && forall i :: 0 <= i < |picks| ==> picks[i].leg == (if i < k then Short else Long) && PathAccepted(picks[i].path)
  }

  /** The check passes every cohort of this size the builder can be given. */
  ghost predicate AlwaysReconciles(k: int)
    requires k > 0
  {
    forall picks :: AcceptedCohort(picks, k) ==> Abs(Difference(Built(picks, k), k)) <= SummaryTolerance
  }

  /** The 128-quantum check cannot fail for up to 129 names per leg. */
  lemma {:induction false} BudgetSuffices(picks: seq<Pick>, k: int)
    requires 0 < k <= 129 && Modelable(picks) && |picks| == 2 * k
    ensures Abs(Difference(Built(picks, k), k)) <= SummaryTolerance
  {
    RoundingBudget(picks, k);
    assert 2 * WorstGap(k) <= 128;
  }

  /** Nothing happens on this path but a price move from one to `exit`. */
  function PathTo(exit: real): Resolution {
    Resolution(1.0, 0, 63, 1.0, exit, 0.0, exit, exit - 1.0, exit - 1.0, [])
  }

  /** k shorts that end at one price and k longs that end at another. */
  function TwoPrices(k: nat, short: real, long: real): (picks: seq<Pick>)
    requires short > 0.0 && long > 0.0
    ensures |picks| == 2 * k
    ensures forall i :: 0 <= i < 2 * k ==>
              picks[i] == if i < k then Pick(Short, PathTo(short)) else Pick(Long, PathTo(long))
  {
    seq(2 * k, i requires 0 <= i < 2 * k => if i < k then Pick(Short, PathTo(short)) else Pick(Long, PathTo(long)))
  }

  lemma PathToAccepted(exit: real)
    requires exit > 0.0
    ensures PathTo(exit).entry > 0.0 && PathAccepted(PathTo(exit))
  {
    assert Reconstructed(PathTo(exit)) == exit - 1.0;
  }

  lemma TwoPricesAccepted(k: nat, short: real, long: real)
    requires short > 0.0 && long > 0.0
    ensures AcceptedCohort(TwoPrices(k, short, long), k)
  {
    PathToAccepted(short);
    PathToAccepted(long);
  }

  /** Every name earns its two fees less 65 quanta. */
  function ShortOfFees(k: nat): seq<Pick> { TwoPrices(k, 0.994_000_000_000_000_065, 1.005_999_999_999_999_935) }

  /** From 130 names on a k-th of those 65 quanta is written as nothing, so the rows add up to nothing, while the
      written returns are 130 quanta short of the fees: the cohort is refused. */
  lemma {:induction false} ShortOfFeesFails(k: int)
    requires k >= 130
    ensures AcceptedCohort(ShortOfFees(k), k)
    ensures Difference(Built(ShortOfFees(k), k), k) == Quanta(130) > SummaryTolerance
  {
    TwoPricesAccepted(k, 0.994_000_000_000_000_065, 1.005_999_999_999_999_935);
    ShortOfFeesRows(k);
    FlatDifference(Built(ShortOfFees(k), k), k, 65);
  }

  /** Rows that all write a P&L of nothing for a contribution of minus n quanta shared by k. */
  predicate Flat(rows: seq<Constituent>, k: int, n: int)
    requires k > 0
  {
    forall i :: 0 <= i < |rows| ==> rows[i].netPnl == 0.0 && Contribution(rows[i], k) == -(Quanta(n) / k as real)
  }

  lemma {:induction false} FlatDifference(rows: seq<Constituent>, k: int, n: int)
    requires k > 0 && |rows| == 2 * k && Flat(rows, k, n)
    ensures Difference(rows, k) == Quanta(2 * n)
  {
    var share := -(Quanta(n) / k as real);
    SumConstant(|rows|, 0.0, RowPnls(rows));
    assert Ledger(rows) == 0.0;
    SumConstant(|rows|, share, Contributions(rows, k));
    ExpectedSum(rows, k);
    SharesAddUp(n, k);
  }

  lemma {:induction false} ShortOfFeesRows(k: int)
    requires k >= 130
    ensures Modelable(ShortOfFees(k)) && Flat(Built(ShortOfFees(k), k), k, 65)
  {
    var picks := ShortOfFees(k);
    var rows := Built(picks, k);
    forall i | 0 <= i < |rows| ensures rows[i].netPnl == 0.0 && Contribution(rows[i], k) == -(Quanta(65) / k as real) {
      var pick := picks[i];
      ShortOfFeesRow(pick.leg, k, pick.path);
      assert rows[i] == Build(pick.leg, k, pick.path);
    }
  }

  lemma ShortOfFeesRow(leg: Leg, k: int, p: Resolution)
    requires k >= 130
    requires p == PathTo(if leg == Short then 0.994_000_000_000_000_065 else 1.005_999_999_999_999_935)
    ensures Build(leg, k, p).netPnl == 0.0 && Contribution(Build(leg, k, p), k) == -(Quanta(65) / k as real)
  {
    assert SignedQuanta(leg, p) == -65.0;
    NothingWritten(k);
    HalfEvenInteger(-65);
    WrittenNet(leg, k, p);
    RowGap(leg, k, p);
  }

  lemma NothingWritten(k: int)
    requires k >= 130
    ensures HalfEven(-65.0 / k as real) == 0
  {
    var x := -65.0 / k as real;
    assert x * k as real == -65.0;
    assert -0.5 <= x <= 0.0;
    HalfEvenUnique(x, 0);
  }

  /** The sizes the check can be relied on. */
  lemma SafeUpTo129(k: int)
    requires k > 0
    ensures AlwaysReconciles(k) <==> k <= 129
  {
    if k <= 129 {
      forall picks | AcceptedCohort(picks, k) ensures Abs(Difference(Built(picks, k), k)) <= SummaryTolerance {
        BudgetSuffices(picks, k);
      }
    } else {
      ShortOfFeesFails(k);
    }
  }

  /** A cohort none of whose paths moved or paid anything. */
  predicate Unmoved(picks: seq<Pick>) {
    Modelable(picks) && forall i ::
        0 <= i < |picks| ==> picks[i].path.exitPrice + picks[i].path.cashTotal == picks[i].path.entry
  }

  /** Two one-way rates, 0.006, in quanta. */
  const TwoRates: int := 6_000_000_000_000_000

  /** On unmoved cohorts the check depends on k alone: it passes exactly when 6*10^15 modulo k is within 64 of a
      multiple of k. */
  lemma {:induction false} UnmovedVerdict(picks: seq<Pick>, k: int)
    requires k > 0 && |picks| == 2 * k && Unmoved(picks)
    ensures Abs(Difference(Built(picks, k), k)) <= SummaryTolerance <==> TwoRates % k <= 64 || k - TwoRates % k <= 64
  {
    UnmovedDifference(picks, k);
    NearestMultiple(TwoRates, k);
  }

  /** Rows without a return, all with the same P&L. */
  predicate EqualRows(rows: seq<Constituent>, pnl: real) {
    forall i :: 0 <= i < |rows| ==> rows[i].reconstructed == 0.0 && rows[i].netPnl == pnl
  }

  lemma {:induction false} EqualRowsDifference(rows: seq<Constituent>, k: int, pnl: real)
    requires k > 0 && EqualRows(rows, pnl)
    ensures Difference(rows, k) == |rows| as real * pnl + 0.012
  {
    SumConstant(|rows|, 0.0, LegReturns(rows, Long));
    SumConstant(|rows|, 0.0, LegReturns(rows, Short));
    SumConstant(|rows|, pnl, RowPnls(rows));
    assert 0.0 / k as real == 0.0;
  }

  lemma {:induction false} UnmovedRows(picks: seq<Pick>, k: int)
    requires k > 0 && Unmoved(picks)
    ensures EqualRows(Built(picks, k), -Money(0.006 / k as real))
  {
    var rows := Built(picks, k);
    forall i | 0 <= i < |rows| ensures rows[i].reconstructed == 0.0 && rows[i].netPnl == -Money(0.006 / k as real) {
      var pick := picks[i];
      UnmovedRow(pick.leg, k, pick.path);
    }
  }

  lemma {:induction false} UnmovedDifference(picks: seq<Pick>, k: int)
    requires k > 0 && |picks| == 2 * k && Unmoved(picks)
    ensures Difference(Built(picks, k), k) == -Quanta(2 * Miss(TwoRates, k))
  {
    UnmovedRows(picks, k);
    WrittenFees(k);
    SharesDifference(Built(picks, k), k, Money(0.006 / k as real), Miss(TwoRates, k));
  }

  lemma WrittenFees(k: int)
    requires k > 0
    ensures k as real * Money(0.006 / k as real) == Quanta(TwoRates + Miss(TwoRates, k))
  {
    assert Quanta(TwoRates) == 0.006;
    WrittenShare(TwoRates, k);
  }

  lemma {:induction false} SharesDifference(rows: seq<Constituent>, k: int, written: real, miss: int)
    requires k > 0 && |rows| == 2 * k && EqualRows(rows, -written)
    requires k as real * written == Quanta(TwoRates + miss)
    ensures Difference(rows, k) == -Quanta(2 * miss)
  {
    EqualRowsDifference(rows, k, -written);
    assert (2 * k) as real * -written == -2.0 * (k as real * written);
  }

  lemma UnmovedRow(leg: Leg, k: int, p: Resolution)
    requires k > 0 && p.entry > 0.0 && p.exitPrice + p.cashTotal == p.entry
    ensures Build(leg, k, p).reconstructed == 0.0 && Build(leg, k, p).netPnl == -Money(0.006 / k as real)
  {
    assert Reconstructed(p) == 0.0;
    NetIsReturn(leg, k, p);
    MoneyFixed(0.0);
    assert Fee(k) + Fee(k) == 0.006 / k as real;
    MoneyOdd(0.006 / k as real);
    assert Sign(leg) * (0.0 / k as real) == 0.0;
  }

  /** A cohort of 148 unmoved names per leg is refused: its rows write 80 quanta too little of each k fees. */
  lemma LargeCohortRejected()
    ensures AcceptedCohort(TwoPrices(148, 1.0, 1.0), 148)
    ensures Abs(Difference(Built(TwoPrices(148, 1.0, 1.0), 148), 148)) > SummaryTolerance
  {
    assert TwoRates % 148 == 80;
    TwoPricesAccepted(148, 1.0, 1.0);
    UnmovedVerdict(TwoPrices(148, 1.0, 1.0), 148);
  }

  /** The validator's recomputation of a summary's P&L fields. */
  predicate SummaryValid(s: CohortSummary, rows: seq<Constituent>, k: int)
    requires k > 0
  {
    && Abs(Difference(rows, k)) <= SummaryTolerance
    && Abs(s.gross - Gross(rows, k)) <= SummaryTolerance
    && Abs(s.net - (Gross(rows, k) - 0.012)) <= SummaryTolerance
    && Abs(s.ledgerPnl - Ledger(rows)) <= SummaryTolerance
    && Abs(s.terminalNav - (1.0 + Ledger(rows))) <= SummaryTolerance
    && Abs(s.difference - Difference(rows, k)) <= SummaryTolerance
  }

  /** For up to 129 names per leg the summary of a built cohort passes the validator. */
  lemma BuiltSummaryValid(picks: seq<Pick>, k: int)
    requires 0 < k <= 129 && Modelable(picks) && |picks| == 2 * k
    ensures SummaryValid(Summarize(Built(picks, k), k), Built(picks, k), k)
  {
    var rows := Built(picks, k);
    BudgetSuffices(picks, k);
    MoneyError(Gross(rows, k));
    MoneyError(Gross(rows, k) - 0.012);
    MoneyError(Ledger(rows));
    MoneyError(1.0 + Ledger(rows));
    MoneyError(Difference(rows, k));
  }
}
