/** What an execution ledger says, told in the source's figures and in the written numbers: the rows it writes, the
    paths and rows it accepts, and the summaries it draws. */
module LedgerEvidence {
  import opened Rounding
  import opened Sums
  import opened Books
  import opened WrittenRows
  import opened ExecutionLedger
  import opened CohortLedger

  // ----- a written row -----

  function Side(leg: Leg): real { match leg case Long => 1.0 case Short => -1.0 }

  /** So many shares cost a k-th of the capital, on the leg's side. */
  predicate Buys(leg: Leg, k: int, price: real, shares: real) { shares * price * k as real == Side(leg) }

  /** What this many shares bring at so much a share. */
  function Bring(shares: real, each: real): real { shares * each }

  /** At this return the entry price becomes the exit price and the cash. */
  predicate Returns(p: Resolution, gross: real) { (1.0 + gross) * p.entry == p.exitPrice + p.cashTotal }

  predicate AccrualWritten(shares: real, a: Accrual, w: WrittenAccrual) {
    w.date == a.date && w.key == a.key && Reports(w.amount, a.amount) && Reports(w.signed, Bring(shares, a.amount))
  }

  /** The row reports the path: the shares, what price and distributions bring, two fees of three tenths of a
      percent. */
  predicate RowWritten(leg: Leg, k: int, p: Resolution, shares: real, gross: real, row: Constituent)
    requires k > 0
  {
    && row.leg == leg && row.entryDate == p.entryDate && row.exitDate == p.exitDate
    && Reports(row.entry, p.entry) && Reports(row.exit, p.exitPrice) && Reports(row.cashTotal, p.cashTotal)
    && Reports(row.sourceReturn, p.candidate) && Reports(row.reconstructed, gross)
    && Reports(row.target, Side(leg) / k as real) && ReportsShares(row.quantity, shares)
    && Reports(row.pricePnl, Bring(shares, p.exitPrice - p.entry))
    && Reports(row.distributionPnl, Bring(shares, p.cashTotal))
    && Reports(row.entryFee, 0.003 / k as real) && Reports(row.exitFee, 0.003 / k as real)
    && Reports(row.totalFees, 0.006 / k as real)
    && Reports(row.netPnl, Bring(shares, p.exitPrice - p.entry + p.cashTotal) - 0.006 / k as real)
    && |row.accruals| == |p.distributions|
    && forall i | 0 <= i < |row.accruals| :: AccrualWritten(shares, p.distributions[i], row.accruals[i])
  }

  lemma SharesBuy(leg: Leg, k: int, p: Resolution)
    requires k > 0 && p.entry > 0.0
    ensures Buys(leg, k, p.entry, Shares(leg, k, p))
  {
    assert Shares(leg, k, p) * p.entry == Target(leg, k);
    assert Target(leg, k) * k as real == Side(leg);
  }

  lemma GrossReturns(p: Resolution)
    requires p.entry > 0.0
    ensures Returns(p, Reconstructed(p))
  {
    var gain := (p.exitPrice + p.cashTotal) / p.entry;
    assert gain * p.entry == p.exitPrice + p.cashTotal;
  }

  lemma BringAddsUp(shares: real, a: real, b: real)
    ensures Bring(shares, a) + Bring(shares, b) == Bring(shares, a + b)
  {
  }

  lemma FeesAddUp(k: int)
    requires k > 0
    ensures Fee(k) + Fee(k) == 0.006 / k as real
  {
  }

  lemma {:induction false} AccrualsWritten(shares: real, distributions: seq<Accrual>, i: nat)
    requires i < |distributions|
    ensures AccrualWritten(shares, distributions[i], WriteAccruals(shares, distributions)[i])
  {
    MoneyReports(distributions[i].amount);
    MoneyReports(Times(shares, distributions[i].amount));
  }

  /** The builder writes such a row. */
  lemma {:induction false} BuildTells(leg: Leg, k: int, p: Resolution)
    requires k > 0 && p.entry > 0.0
    ensures Buys(leg, k, p.entry, Shares(leg, k, p)) && Returns(p, Reconstructed(p))
    ensures RowWritten(leg, k, p, Shares(leg, k, p), Reconstructed(p), Build(leg, k, p))
  {
    SharesBuy(leg, k, p);
    GrossReturns(p);
    var e := Exact(leg, k, p);
    var q := e.quantity;
    FeesAddUp(k);
    BringAddsUp(q, p.exitPrice - p.entry, p.cashTotal);
    forall i | 0 <= i < |p.distributions|
      ensures AccrualWritten(q, p.distributions[i], WriteAccruals(q, p.distributions)[i])
    {
      AccrualsWritten(q, p.distributions, i);
    }
    FieldsTell(leg, k, p, e);
  }

  lemma {:induction false} FieldsTell(leg: Leg, k: int, p: Resolution, e: Economics)
    requires k > 0 && e.target == Side(leg) / k as real
    requires e.fee == 0.003 / k as real && e.fee + e.fee == 0.006 / k as real
    requires e.pricePnl == Bring(e.quantity, p.exitPrice - p.entry)
    requires e.distributionPnl == Bring(e.quantity, p.cashTotal)
    requires e.net == Bring(e.quantity, p.exitPrice - p.entry + p.cashTotal) - 0.006 / k as real
    requires forall i | 0 <= i < |p.distributions| ::
      AccrualWritten(e.quantity, p.distributions[i], WriteAccruals(e.quantity, p.distributions)[i])
    ensures RowWritten(leg, k, p, e.quantity, e.gross, Write(leg, p, e))
  {
    MoneyReports(p.entry);
    MoneyReports(p.exitPrice);
    MoneyReports(p.cashTotal);
    MoneyReports(p.candidate);
    MoneyReports(e.gross);
    MoneyReports(e.target);
    QuantityReports(e.quantity);
    MoneyReports(e.pricePnl);
    MoneyReports(e.distributionPnl);
    MoneyReports(e.fee);
    MoneyReports(e.fee + e.fee);
    MoneyReports(e.net);
  }

  // ----- an accepted path -----

  /** No further apart than the tolerance. */
  predicate Within(x: real, y: real, tolerance: real) { -tolerance <= x - y <= tolerance }

  function AmountsUpTo(distributions: seq<Accrual>, n: nat): real
    requires n <= |distributions|
  {
    if n == 0 then 0.0 else AmountsUpTo(distributions, n - 1) + distributions[n - 1].amount
  }

  /** The source's own figures bear the path out, to the twelfth place. */
  predicate BorneOut(p: Resolution, gross: real) {
    && p.entryPrice > 0.0 && p.exitPrice > 0.0 && p.cashTotal >= 0.0 && p.entryDate <= p.exitDate
    && Within(p.entryPrice, p.entry, 0.000_000_000_001)
    && Within(p.grossTerminal, p.exitPrice + p.cashTotal, 0.000_000_000_001)
    && Within(p.candidate, gross, 0.000_000_000_001) && Within(p.grossReturn, gross, 0.000_000_000_001)
    && Within(AmountsUpTo(p.distributions, |p.distributions|), p.cashTotal, 0.000_000_000_001)
    && (forall i | 0 <= i < |p.distributions| ::
          p.entryDate < p.distributions[i].date <= p.exitDate && p.distributions[i].amount > 0.0)
    && forall i, j | 0 <= i < j < |p.distributions| :: p.distributions[i].key != p.distributions[j].key
  }

  lemma {:induction false} AmountsTell(distributions: seq<Accrual>, n: nat)
    requires n <= |distributions|
    ensures SumTo(n, Amounts(distributions)) == AmountsUpTo(distributions, n)
  {
    if n > 0 { AmountsTell(distributions, n - 1); }
  }

  /** Exactly those paths are modelled. */
  lemma {:induction false} PathTells(p: Resolution)
    requires p.entry > 0.0
    ensures Returns(p, Reconstructed(p)) && (PathAccepted(p) <==> BorneOut(p, Reconstructed(p)))
  {
    GrossReturns(p);
    AmountsTell(p.distributions, |p.distributions|);
  }

  // ----- a validated row -----

  function WrittenUpTo(row: Constituent, n: nat): real
    requires n <= |row.accruals|
  {
    if n == 0 then 0.0 else WrittenUpTo(row, n - 1) + row.accruals[n - 1].amount
  }

  function SignedUpTo(row: Constituent, n: nat): real
    requires n <= |row.accruals|
  {
    if n == 0 then 0.0 else SignedUpTo(row, n - 1) + row.accruals[n - 1].signed
  }

  /** The accrual falls in the holding interval and is the shares' part of its amount, to 32 quanta. */
  predicate AccrualHolds(row: Constituent, a: WrittenAccrual) {
    && row.entryDate < a.date <= row.exitDate && a.amount > 0.0
    && Within(a.signed, Bring(row.quantity, a.amount), 0.000_000_000_000_000_032)
  }

  /** The written returns are what the written prices and cash make of the entry. */
  predicate ReturnsHold(row: Constituent, k: int)
    requires k > 0 && row.entry > 0.0
  {
    && Within(row.reconstructed, (row.exit + row.cashTotal) / row.entry - 1.0, 0.000_000_000_000_000_032)
    && Within(row.sourceReturn, (row.exit + row.cashTotal) / row.entry - 1.0, 0.000_000_000_001)
    && Within(row.target, Side(row.leg) / k as real, 0.000_000_000_000_000_001)
    && Within(row.quantity, Side(row.leg) / k as real / row.entry, 0.000_000_000_000_000_000_000_001)
  }

  /** The written money adds up. */
  predicate MoneyHolds(row: Constituent, k: int)
    requires k > 0
  {
    && Within(row.entryFee, 0.003 / k as real, 0.000_000_000_000_000_001)
    && Within(row.exitFee, 0.003 / k as real, 0.000_000_000_000_000_001)
    && Within(row.totalFees, row.entryFee + row.exitFee, 0.000_000_000_000_000_001)
    && Within(row.pricePnl, Bring(row.quantity, row.exit - row.entry), 0.000_000_000_000_000_032)
    && Within(row.distributionPnl, SignedUpTo(row, |row.accruals|), 0.000_000_000_000_000_032)
    && Within(row.netPnl, row.pricePnl + row.distributionPnl - row.totalFees, 0.000_000_000_000_000_032)
  }

  predicate RowHolds(row: Constituent, k: int)
    requires k > 0
  {
    && row.entry > 0.0 && row.exit > 0.0 && row.cashTotal >= 0.0 && ReturnsHold(row, k)
    && (forall i | 0 <= i < |row.accruals| :: AccrualHolds(row, row.accruals[i]))
    && Within(WrittenUpTo(row, |row.accruals|), row.cashTotal, 0.000_000_000_000_000_032) && MoneyHolds(row, k)
  }

  lemma {:induction false} TotalsTell(row: Constituent, n: nat)
    requires n <= |row.accruals|
    ensures SumTo(n, WrittenAmounts(row.accruals)) == WrittenUpTo(row, n)
    ensures SumTo(n, SignedAmounts(row.accruals)) == SignedUpTo(row, n)
  {
    if n > 0 { TotalsTell(row, n - 1); }
  }

  lemma {:induction false} AccrualTells(row: Constituent, a: WrittenAccrual)
    ensures AccrualValid(row, a) <==> AccrualHolds(row, a)
  {
  }

  lemma {:induction false} BasisTells(row: Constituent, k: int)
    requires k > 0
    ensures BasisValid(row, k) <==> row.entry > 0.0 && row.exit > 0.0 && row.cashTotal >= 0.0 && ReturnsHold(row, k)
  {
    assert Target(row.leg, k) == Side(row.leg) / k as real;
  }

  lemma {:induction false} MoneyTells(row: Constituent, k: int)
    requires k > 0
    ensures MoneyValid(row, k) <==> MoneyHolds(row, k)
  {
    TotalsTell(row, |row.accruals|);
  }

  /** The validator accepts exactly such rows. */
  lemma {:induction false} RowTells(row: Constituent, k: int)
    requires k > 0
    ensures BasisValid(row, k) && AccrualsValid(row) && MoneyValid(row, k) <==> RowHolds(row, k)
  {
    BasisTells(row, k);
    MoneyTells(row, k);
    TotalsTell(row, |row.accruals|);
    forall i | 0 <= i < |row.accruals|
      ensures AccrualValid(row, row.accruals[i]) <==> AccrualHolds(row, row.accruals[i])
    {
      AccrualTells(row, row.accruals[i]);
    }
  }

  // ----- a summary -----

  /** The written returns of one leg's rows, and the written P&L of all, added up. */
  function LegUpTo(rows: seq<Constituent>, leg: Leg, n: nat): real
    requires n <= |rows|
  {
    if n == 0 then 0.0
    else LegUpTo(rows, leg, n - 1) + if rows[n - 1].leg == leg then rows[n - 1].reconstructed else 0.0
  }

  function PnlUpTo(rows: seq<Constituent>, n: nat): real
    requires n <= |rows|
  {
    if n == 0 then 0.0 else PnlUpTo(rows, n - 1) + rows[n - 1].netPnl
  }

  /** The long leg's mean return over the short leg's. */
  function Spread(rows: seq<Constituent>, k: int): real
    requires k > 0
  {
    (LegUpTo(rows, Long, |rows|) - LegUpTo(rows, Short, |rows|)) / k as real
  }

  /** A cohort of two full legs, held over the same days, whose P&L is its spread less 1.2% to 128 quanta. */
  predicate Reconciles(rows: seq<Constituent>, k: int)
    requires k > 0
  {
    && |rows| == 2 * k
    && Within(PnlUpTo(rows, |rows|), Spread(rows, k) - 0.012, 0.000_000_000_000_000_128)
    && forall i, j | 0 <= i < |rows| && 0 <= j < |rows| ::
         rows[i].entryDate == rows[j].entryDate && rows[i].exitDate == rows[j].exitDate
  }

  /** The summary reports the spread, the spread less the fees, the P&L, the closing NAV and what is between them. */
  predicate Summed(rows: seq<Constituent>, k: int, s: CohortSummary)
    requires k > 0
  {
    var spread, pnl := Spread(rows, k), PnlUpTo(rows, |rows|);
    && Reports(s.gross, spread) && Reports(s.net, spread - 0.012) && Reports(s.ledgerPnl, pnl)
    && Reports(s.terminalNav, 1.0 + pnl) && Reports(s.difference, pnl - spread + 0.012)
  }

  lemma {:induction false} LegTells(rows: seq<Constituent>, leg: Leg, n: nat)
    requires n <= |rows|
    ensures SumTo(n, LegReturns(rows, leg)) == LegUpTo(rows, leg, n)
  {
    if n > 0 { LegTells(rows, leg, n - 1); }
  }

  lemma {:induction false} PnlTells(rows: seq<Constituent>, n: nat)
    requires n <= |rows|
    ensures SumTo(n, RowPnls(rows)) == PnlUpTo(rows, n)
  {
    if n > 0 { PnlTells(rows, n - 1); }
  }

  lemma SpreadIs(l: real, s: real, k: int)
    requires k > 0
    ensures l / k as real - s / k as real == (l - s) / k as real
  {
  }

  lemma {:induction false} GrossTells(rows: seq<Constituent>, k: int)
    requires k > 0
    ensures Gross(rows, k) == Spread(rows, k)
  {
    LegTells(rows, Long, |rows|);
    LegTells(rows, Short, |rows|);
    SpreadIs(LegUpTo(rows, Long, |rows|), LegUpTo(rows, Short, |rows|), k);
  }

  /** Exactly those cohorts are summarized, and so. */
  lemma {:induction false} CohortTells(rows: seq<Constituent>, k: int)
    requires k > 0
    ensures |rows| == 2 * k && Abs(Difference(rows, k)) <= SummaryTolerance && SharedDates(rows)
      <==> Reconciles(rows, k)
    ensures Summed(rows, k, Summarize(rows, k))
  {
    GrossTells(rows, k);
    PnlTells(rows, |rows|);
    SharedTell(rows);
    SummaryTells(Spread(rows, k), PnlUpTo(rows, |rows|));
  }

  lemma SummaryTells(spread: real, pnl: real)
    ensures Reports(Money(spread), spread) && Reports(Money(spread - 0.012), spread - 0.012) && Reports(Money(pnl), pnl)
    ensures Reports(Money(1.0 + pnl), 1.0 + pnl) && Reports(Money(pnl - (spread - 0.012)), pnl - spread + 0.012)
  {
    MoneyReports(spread);
    MoneyReports(spread - 0.012);
    MoneyReports(pnl);
    MoneyReports(1.0 + pnl);
    MoneyReports(pnl - (spread - 0.012));
  }

  lemma {:induction false} SharedTell(rows: seq<Constituent>)
    ensures SharedDates(rows) <==> forall i, j | 0 <= i < |rows| && 0 <= j < |rows| ::
        rows[i].entryDate == rows[j].entryDate && rows[i].exitDate == rows[j].exitDate
  {
  }
}
