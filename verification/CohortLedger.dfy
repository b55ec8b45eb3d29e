/** Cohort summaries: the sum of the serialized constituent P&L against the factor return of the serialized
    constituent returns, and the 128-quantum check between them. */
module CohortLedger {
  import opened Rounding
  import opened Residues
  import opened Optional
  import opened Sums
  import opened Books
  import opened ExecutionLedger

  /** One selected path and the leg it was frozen into. */
  datatype Pick = Pick(leg: Leg, path: Resolution)

  datatype CohortSummary = CohortSummary(gross: real, net: real, ledgerPnl: real, terminalNav: real, difference: real)

  predicate Modelable(picks: seq<Pick>) {
    forall i :: 0 <= i < |picks| ==> picks[i].path.entry > 0.0
  }

  function Built(picks: seq<Pick>, k: int): seq<Constituent>
    requires k > 0 && Modelable(picks)
  {
    seq(|picks|, i requires 0 <= i < |picks| => Build(picks[i].leg, k, picks[i].path))
  }

  function LegReturns(rows: seq<Constituent>, leg: Leg): int -> real {
    i => if 0 <= i < |rows| && rows[i].leg == leg then rows[i].reconstructed else 0.0
  }

  function RowPnls(rows: seq<Constituent>): int -> real { i => if 0 <= i < |rows| then rows[i].netPnl else 0.0 }

  function Ledger(rows: seq<Constituent>): real { SumTo(|rows|, RowPnls(rows)) }

  /** Mean long return minus mean short return, from the written returns. */
  function Gross(rows: seq<Constituent>, k: int): real
    requires k > 0
  {
    SumTo(|rows|, LegReturns(rows, Long)) / k as real - SumTo(|rows|, LegReturns(rows, Short)) / k as real
  }

  function Difference(rows: seq<Constituent>, k: int): real
    requires k > 0
  {
    Ledger(rows) - (Gross(rows, k) - 0.012)
  }

  function Summarize(rows: seq<Constituent>, k: int): CohortSummary
    requires k > 0
  {
    CohortSummary(Money(Gross(rows, k)), Money(Gross(rows, k) - 0.012), Money(Ledger(rows)), Money(1.0 + Ledger(rows)),
                  Money(Difference(rows, k)))
  }

  predicate SharedDates(rows: seq<Constituent>) {
    forall i :: 0 <= i < |rows| ==> rows[i].entryDate == rows[0].entryDate && rows[i].exitDate == rows[0].exitDate
  }

  /** The cohort builder: summarizes exactly the exhaustive cohorts whose P&L reconciles within 128 quanta. */
  method CohortProducts(rows: seq<Constituent>, k: int) returns (r: Option<CohortSummary>)
    requires k > 0
    ensures r.Some? <==> |rows| == 2 * k && Abs(Difference(rows, k)) <= SummaryTolerance && SharedDates(rows)
    ensures r.Some? ==> r.value == Summarize(rows, k)
  {
    if |rows| != 2 * k {
      return None;
    }
    var long, short, ledger := 0.0, 0.0, 0.0;
    for i := 0 to |rows|
      invariant long == SumTo(i, LegReturns(rows, Long)) && short == SumTo(i, LegReturns(rows, Short))
      invariant ledger == SumTo(i, RowPnls(rows))
    {
      if rows[i].leg == Long {
        long := long + rows[i].reconstructed;
      } else {
        short := short + rows[i].reconstructed;
      }
      ledger := ledger + rows[i].netPnl;
    }
    var gross := long / k as real - short / k as real;
    var difference := ledger - (gross - 0.012);
    if Abs(difference) > SummaryTolerance {
      return None;
    }
    for i := 0 to |rows|
      invariant forall j :: 0 <= j < i ==>
          rows[j].entryDate == rows[0].entryDate && rows[j].exitDate == rows[0].exitDate
    {
      if rows[i].entryDate != rows[0].entryDate || rows[i].exitDate != rows[0].exitDate {
        return None;
      }
    }
    return Some(CohortSummary(Money(gross), Money(gross - 0.012), Money(ledger), Money(1.0 + ledger),
                              Money(difference)));
  }

  /** A path's exact P&L is its signed share of the return minus two fees: price and distribution P&L add up. */
  lemma NetIsReturn(leg: Leg, k: int, p: Resolution)
    requires k > 0 && p.entry > 0.0
    ensures Exact(leg, k, p).net == Sign(leg) * (Reconstructed(p) / k as real) - Fee(k) - Fee(k)
  {
    var t, q, gain := Target(leg, k), Shares(leg, k, p), (p.exitPrice + p.cashTotal) / p.entry;
    assert q * p.entry == t && gain * p.entry == p.exitPrice + p.cashTotal;
    assert q * (gain * p.entry) == (q * p.entry) * gain;
    assert Times(q, p.exitPrice - p.entry) + Times(q, p.cashTotal) == q * (p.exitPrice + p.cashTotal) - q * p.entry;
    assert t * gain - t == t * Reconstructed(p);
    SignedShare(leg, k, Reconstructed(p));
  }

  lemma SignedShare(leg: Leg, k: int, x: real)
    requires k > 0
    ensures Target(leg, k) * x == Sign(leg) * (x / k as real)
  {
  }

  /** A row's signed return less two one-way fee rates, and its 1/k share: what the row should contribute. */
  function SignedReturns(rows: seq<Constituent>): int -> real {
    i => if 0 <= i < |rows| then Sign(rows[i].leg) * rows[i].reconstructed - 0.006 else 0.0
  }

  function Contribution(row: Constituent, k: int): real
    requires k > 0
  {
    (Sign(row.leg) * row.reconstructed - 0.006) / k as real
  }

  function Contributions(rows: seq<Constituent>, k: int): int -> real
    requires k > 0
  {
    i => if 0 <= i < |rows| then Contribution(rows[i], k) else 0.0
  }

  lemma {:induction false} LegSplit(rows: seq<Constituent>, n: nat)
    requires n <= |rows|
    ensures SumTo(n, SignedReturns(rows)) ==
            SumTo(n, LegReturns(rows, Long)) - SumTo(n, LegReturns(rows, Short)) - n as real * 0.006
  {
    if n > 0 {
      LegSplit(rows, n - 1);
    }
  }

  lemma Divided(x: real, k: int)
    requires k > 0
    ensures x / k as real == (1.0 / k as real) * x
  {
  }

  lemma MeanDifference(l: real, s: real, k: int)
    requires k > 0
    ensures (1.0 / k as real) * (l - s - (2 * k) as real * 0.006) == l / k as real - s / k as real - 0.012
  {
    var c := 1.0 / k as real;
    assert c * k as real == 1.0;
    assert c * (l - s - 2.0 * k as real * 0.006) == c * l - c * s - 0.012 * (c * k as real);
  }

  lemma {:induction false} ExpectedSum(rows: seq<Constituent>, k: int)
    requires k > 0 && |rows| == 2 * k
    ensures SumTo(|rows|, Contributions(rows, k)) == Gross(rows, k) - 0.012
  {
    var f, g := SignedReturns(rows), Contributions(rows, k);
    forall i | 0 <= i < |rows| ensures g(i) == (1.0 / k as real) * f(i) {
      Divided(f(i), k);
    }
    SumScaled(|rows|, 1.0 / k as real, f, g);
    LegSplit(rows, |rows|);
    MeanDifference(SumTo(|rows|, LegReturns(rows, Long)), SumTo(|rows|, LegReturns(rows, Short)), k);
  }

  /** Half-even division twice over: rounding tau/k and rounding tau leave k times the one this far from the
      other, at most. Both can tie, against each other, only when (k+1)/2 is even. */
  function WorstGap(k: int): int
    requires k > 0
  {
    if k % 4 == 3 then (k + 1) / 2 else k / 2
  }

  function Gap(tau: real, k: int): int
    requires k > 0
  {
    k * HalfEven(tau / k as real) - HalfEven(tau)
  }

  lemma GapBound(tau: real, k: int)
    requires k > 0
    ensures -WorstGap(k) <= Gap(tau, k) <= WorstGap(k)
  {
    var h := HalfEven(tau / k as real);
    Stretched(tau, h, k);
    if h % 2 == 0 { EvenMultiple(k, h); }
    OppositeTies(k, k * h, HalfEven(tau), tau);
    CloseIntegers(k, k * h - HalfEven(tau));
  }

  lemma CloseIntegers(k: int, gap: int)
    requires k > 0 && WithinHalves(gap, k + 1)
    ensures -WorstGap(k) <= gap <= WorstGap(k)
  {
  }

  lemma Stretched(tau: real, h: int, k: int)
    requires k > 0 && -0.5 <= h as real - tau / k as real <= 0.5
    ensures -k as real <= 2.0 * ((k * h) as real - tau) <= k as real
    ensures 2.0 * ((k * h) as real - tau) == k as real ==> h as real - tau / k as real == 0.5
    ensures 2.0 * ((k * h) as real - tau) == -k as real ==> h as real - tau / k as real == -0.5
  {
    var kr, x := k as real, tau / k as real;
    var d, far := (k * h) as real - tau, h as real - x;
    assert d == kr * far by {
      assert kr * x == tau;
      assert (k * h) as real == kr * h as real;
      assert kr * far == kr * h as real - kr * x;
    }
    FarMultiple(d, far, kr);
  }

  lemma FarMultiple(d: real, far: real, k: real)
    requires d == k * far && -0.5 <= far <= 0.5 && k > 0.0
    ensures -k <= 2.0 * d <= k
    ensures 2.0 * d == k ==> far == 0.5
    ensures 2.0 * d == -k ==> far == -0.5
  {
    assert k * far <= k * 0.5 && k * -0.5 <= k * far;
    assert k * far == k * 0.5 ==> far == 0.5;
    assert k * far == k * -0.5 ==> far == -0.5;
  }

  lemma EvenMultiple(k: int, h: int)
    requires h % 2 == 0
    ensures (k * h) % 2 == 0
  {
    assert k * h == 2 * (k * (h / 2));
  }

  /** The signed return of a path less two one-way rates, in quanta. */
  function SignedQuanta(leg: Leg, p: Resolution): real
    requires p.entry > 0.0
  {
    (Sign(leg) * Reconstructed(p) - 0.006) * 1_000_000_000_000_000_000.0
  }

  /** A written row is off its contribution by exactly this gap, shared by k. */
  lemma RowGap(leg: Leg, k: int, p: Resolution)
    requires k > 0 && p.entry > 0.0
    ensures Build(leg, k, p).netPnl - Contribution(Build(leg, k, p), k)
        == Quanta(Gap(SignedQuanta(leg, p), k)) / k as real
  {
    var tau, r := SignedQuanta(leg, p), Reconstructed(p);
    WrittenNet(leg, k, p);
    SignedRounding(leg, r);
    SharedQuanta(HalfEven(tau / k as real), HalfEven(tau), k);
  }

  lemma WrittenNet(leg: Leg, k: int, p: Resolution)
    requires k > 0 && p.entry > 0.0
    ensures Build(leg, k, p).netPnl == Quanta(HalfEven(SignedQuanta(leg, p) / k as real))
  {
    var r := Reconstructed(p);
    NetIsReturn(leg, k, p);
    SplitContribution(leg, r, k);
    WrittenQuotient(Sign(leg) * r - 0.006, k as real);
  }

  lemma WrittenQuotient(x: real, y: real)
    requires y != 0.0
    ensures Money(x / y) == HalfEven((x * 1_000_000_000_000_000_000.0) / y) as real / 1_000_000_000_000_000_000.0
  {
    var a, b := (x / y) * 1_000_000_000_000_000_000.0, (x * 1_000_000_000_000_000_000.0) / y;
    assert a == b by { QuotientScaled(x, y, 1_000_000_000_000_000_000.0); }
    assert HalfEven(a) == HalfEven(b);
  }

  lemma QuotientScaled(x: real, y: real, c: real)
    requires y != 0.0
    ensures (x / y) * c == (x * c) / y
  {
    assert ((x / y) * c) * y == x * c;
  }

  /** The rate is an even number of quanta and rounding is odd, so sign and rate pass through. */
  lemma SignedRounding(leg: Leg, r: real)
    ensures Sign(leg) * Money(r) - 0.006 == Quanta(HalfEven((Sign(leg) * r - 0.006) * 1_000_000_000_000_000_000.0))
  {
    var x := r * 1_000_000_000_000_000_000.0;
    HalfEvenOdd(x);
    HalfEvenShift(Sign(leg) * x, -6_000_000_000_000_000);
    assert (Sign(leg) * r - 0.006) * 1_000_000_000_000_000_000.0 == Sign(leg) * x + (-6_000_000_000_000_000) as real;
  }

  lemma SharedQuanta(h: int, n: int, k: int)
    requires k > 0
    ensures Quanta(h) - Quanta(n) / k as real == Quanta(k * h - n) / k as real
  {
    var kr, unit := k as real, 1_000_000_000_000_000_000.0;
    assert (k * h - n) as real == kr * h as real - n as real;
    assert (kr * h as real) / unit / kr == h as real / unit;
    assert (kr * h as real - n as real) / unit / kr == (kr * h as real) / unit / kr - n as real / unit / kr;
  }

  lemma SplitContribution(leg: Leg, r: real, k: int)
    requires k > 0
    ensures (Sign(leg) * r - 0.006) / k as real == Sign(leg) * (r / k as real) - Fee(k) - Fee(k)
  {
    var kr := k as real;
    assert (r - 0.006) / kr == r / kr - 0.006 / kr;
    assert (-r - 0.006) / kr == -(r / kr) - 0.006 / kr;
    assert Fee(k) + Fee(k) == 0.006 / kr;
  }

  /** Rows that are each within e of their contribution. */
  predicate RowsWithin(rows: seq<Constituent>, k: int, e: real)
    requires k > 0
  {
    forall i :: 0 <= i < |rows| ==> Abs(rows[i].netPnl - Contribution(rows[i], k)) <= e
  }

  lemma {:induction false} LedgerWithin(rows: seq<Constituent>, k: int, e: real)
    requires k > 0 && RowsWithin(rows, k, e)
    ensures Abs(Ledger(rows) - SumTo(|rows|, Contributions(rows, k))) <= |rows| as real * e
  {
    SumWithin(|rows|, RowPnls(rows), Contributions(rows, k), e);
  }

  function RowError(k: int): real
    requires k > 0
  {
    Quanta(WorstGap(k)) / k as real
  }

  lemma RowBudget(leg: Leg, k: int, p: Resolution)
    requires k > 0 && p.entry > 0.0
    ensures Abs(Build(leg, k, p).netPnl - Contribution(Build(leg, k, p), k)) <= RowError(k)
  {
    RowGap(leg, k, p);
    GapBound(SignedQuanta(leg, p), k);
    GapShare(Gap(SignedQuanta(leg, p), k), WorstGap(k), k);
  }

  lemma GapShare(gap: int, worst: int, k: int)
    requires k > 0 && -worst <= gap <= worst
    ensures Abs(Quanta(gap) / k as real) <= Quanta(worst) / k as real
  {
    var kr, x, y := k as real, Quanta(gap), Quanta(worst);
    assert -y <= x <= y;
    QuotientOrder(x, y, kr);
    QuotientOrder(-y, x, kr);
    assert (-y) / kr == -(y / kr);
  }

  lemma QuotientOrder(x: real, y: real, k: real)
    requires x <= y && k > 0.0
    ensures x / k <= y / k
  {
  }

  lemma {:induction false} BuiltRowsWithin(picks: seq<Pick>, k: int)
    requires k > 0 && Modelable(picks)
    ensures RowsWithin(Built(picks, k), k, RowError(k))
  {
    forall i | 0 <= i < |picks|
      ensures Abs(Built(picks, k)[i].netPnl - Contribution(Built(picks, k)[i], k)) <= RowError(k)
    {
      var pick := picks[i];
      RowBudget(pick.leg, k, pick.path);
    }
  }

  /** Cohort rounding budget: twice the worst gap of a row, at most k+1 quanta. */
  lemma {:induction false} RoundingBudget(picks: seq<Pick>, k: int)
    requires k > 0 && Modelable(picks) && |picks| == 2 * k
    ensures Abs(Difference(Built(picks, k), k)) <= Quanta(2 * WorstGap(k)) <= Quanta(k + 1)
  {
    BuiltRowsWithin(picks, k);
    ErrorsAddUp(|picks|, k, RowError(k));
    BudgetOfRows(Built(picks, k), k, RowError(k), Quanta(2 * WorstGap(k)));
  }

  lemma {:induction false} BudgetOfRows(rows: seq<Constituent>, k: int, e: real, budget: real)
    requires k > 0 && |rows| == 2 * k && RowsWithin(rows, k, e) && |rows| as real * e == budget
    ensures Abs(Difference(rows, k)) <= budget
  {
    LedgerWithin(rows, k, e);
    ExpectedSum(rows, k);
  }

  lemma ErrorsAddUp(n: int, k: int, error: real)
    requires k > 0 && n == 2 * k && error == RowError(k)
    ensures n as real * error == Quanta(2 * WorstGap(k))
  {
    SharesAddUp(WorstGap(k), k);
  }

  lemma SharesAddUp(n: int, k: int)
    requires k > 0
    ensures (2 * k) as real * (Quanta(n) / k as real) == Quanta(2 * n)
  {
    var share := Quanta(n) / k as real;
    assert k as real * share == Quanta(n);
    assert (2 * k) as real * share == 2.0 * (k as real * share);
  }
}
