/** When the validator accepts what the builder wrote. */
module LedgerValidity {
  import opened Rounding
  import opened Sums
  import opened Books
  import opened ExecutionLedger

  /** Prices and amounts are whole quanta of a moderate size. */
  predicate Serializable(p: Resolution) {
    && OnGrid(p.entry) && OnGrid(p.exitPrice) && OnGrid(p.cashTotal)
    && Abs(p.exitPrice - p.entry) <= 60_000_000.0
    && forall i :: 0 <= i < |p.distributions| ==>
        OnGrid(p.distributions[i].amount) && p.distributions[i].amount <= 60_000_000.0
  }

  lemma ProductBound(d: real, x: real, bound: real, size: real)
    requires Abs(d) <= bound && Abs(x) <= size
    ensures Abs(d * x) <= bound * size
  {
    var a, b := Abs(d), Abs(x);
    assert Abs(d * x) == a * b;
    assert a * b <= bound * b;
    assert bound * b <= bound * size;
  }

  /** Multiplying by the serialized quantity instead of the exact one costs at most thirty quanta. */
  lemma QuantityProduct(q: real, x: real)
    requires Abs(x) <= 60_000_000.0
    ensures Abs(Money(Times(q, x)) - Times(Quantity(q), x)) <= MoneyTolerance
  {
    QuantityError(q);
    var exact, written := Times(q, x), Times(Quantity(q), x);
    MoneyError(exact);
    ProductGap(q, Quantity(q), x);
  }

  lemma ProductGap(q: real, r: real, x: real)
    requires Abs(x) <= 60_000_000.0 && Abs(r - q) <= 0.000_000_000_000_000_000_000_000_5
    ensures Abs(Times(r, x) - Times(q, x)) <= 0.000_000_000_000_000_03
  {
    ProductBound(r - q, x, 0.000_000_000_000_000_000_000_000_5, 60_000_000.0);
    assert Times(r, x) - Times(q, x) == (r - q) * x;
  }

  /** The tight check: a doubled fee and twice the written fee are at most one quantum apart. */
  lemma DoubledFee(f: real)
    ensures Abs(Money(f + f) - Money(f) - Money(f)) <= Q
  {
    MoneyOnGrid(f);
    MoneyOnGrid(f + f);
    GridSum(Money(f), Money(f));
    GridGap(Money(f + f), Money(f) + Money(f), 1);
  }

  function Total(p: Resolution): real { SumTo(|p.distributions|, Amounts(p.distributions)) }

  function ScaledAmounts(q: real, distributions: seq<Accrual>): int -> real {
    i => Times(q, Amounts(distributions)(i))
  }

  lemma ScaledTotal(q: real, p: Resolution)
    ensures SumTo(|p.distributions|, ScaledAmounts(q, p.distributions)) == Times(q, Total(p))
  {
    SumScaled(|p.distributions|, q, Amounts(p.distributions), ScaledAmounts(q, p.distributions));
  }

  /** Writing each signed accrual separately costs half a quantum per distribution. */
  lemma SignedTotal(q: real, p: Resolution)
    ensures Abs(SumTo(|p.distributions|, SignedAmounts(WriteAccruals(q, p.distributions))) - Times(q, Total(p)))
            <= |p.distributions| as real * 0.000_000_000_000_000_000_5
  {
    var n, f, g := |p.distributions|, SignedAmounts(WriteAccruals(q, p.distributions)),
        ScaledAmounts(q, p.distributions);
    forall i | 0 <= i < n ensures Abs(f(i) - g(i)) <= 0.000_000_000_000_000_000_5 {
      SignedError(q, p.distributions, i);
    }
    SumWithin(n, f, g, 0.000_000_000_000_000_000_5);
    ScaledTotal(q, p);
  }

  lemma SignedError(q: real, distributions: seq<Accrual>, i: nat)
    requires i < |distributions|
    ensures Abs(SignedAmounts(WriteAccruals(q, distributions))(i) - ScaledAmounts(q, distributions)(i))
            <= 0.000_000_000_000_000_000_5
  {
    var x := Times(q, distributions[i].amount);
    MoneyError(x);
    assert WriteAccruals(q, distributions)[i].signed == Money(x);
    assert Amounts(distributions)(i) == distributions[i].amount;
    assert ScaledAmounts(q, distributions)(i) == Times(q, Amounts(distributions)(i));
  }

  lemma WrittenTotal(q: real, p: Resolution)
    requires Serializable(p)
    ensures SumTo(|p.distributions|, WrittenAmounts(WriteAccruals(q, p.distributions))) == Total(p)
  {
    var f, a := WrittenAmounts(WriteAccruals(q, p.distributions)), Amounts(p.distributions);
    forall i | 0 <= i < |p.distributions| ensures f(i) == a(i) {
      MoneyFixed(p.distributions[i].amount);
    }
    SumCongruent(|p.distributions|, f, a);
  }

  /** The written candidate return is still within 1e-12 of the rebuilt one. An accepted candidate that is not on
      the money grid can be pushed out of that range by half a quantum. */
  predicate CandidateKept(p: Resolution)
    requires p.entry > 0.0
  {
    Abs(Money(p.candidate) - Reconstructed(p)) <= SourceTolerance
  }

  lemma GridCandidateKept(p: Resolution)
    requires p.entry > 0.0 && PathAccepted(p) && OnGrid(p.candidate)
    ensures CandidateKept(p)
  {
    MoneyFixed(p.candidate);
  }

  lemma BasisOfBuilt(leg: Leg, k: int, p: Resolution)
    requires k > 0 && p.entry > 0.0 && PathAccepted(p) && Serializable(p)
    ensures BasisValid(Build(leg, k, p), k) <==> CandidateKept(p)
  {
    MoneyFixed(p.entry);
    MoneyFixed(p.exitPrice);
    MoneyFixed(p.cashTotal);
    MoneyError(Reconstructed(p));
    MoneyError(Target(leg, k));
    QuantityError(Shares(leg, k, p));
  }

  lemma AccrualsOfWritten(leg: Leg, p: Resolution, e: Economics)
    requires p.entry > 0.0 && PathAccepted(p) && Serializable(p)
    ensures var row := Write(leg, p, e); forall i :: 0 <= i < |row.accruals| ==> AccrualValid(row, row.accruals[i])
  {
    var row := Write(leg, p, e);
    forall i | 0 <= i < |row.accruals| ensures AccrualValid(row, row.accruals[i]) {
      AccrualOfWritten(leg, p, e, i);
    }
  }

  lemma AccrualOfWritten(leg: Leg, p: Resolution, e: Economics, i: nat)
    requires i < |p.distributions| && p.entry > 0.0 && PathAccepted(p) && Serializable(p)
    ensures AccrualValid(Write(leg, p, e), Write(leg, p, e).accruals[i])
  {
    assert InInterval(p, p.distributions[i]);
    MoneyFixed(p.distributions[i].amount);
    QuantityProduct(e.quantity, p.distributions[i].amount);
  }

  lemma FeesOfWritten(leg: Leg, k: int, p: Resolution, e: Economics)
    requires k > 0 && e.fee == Fee(k) && e.net == e.pricePnl + e.distributionPnl - e.fee - e.fee
    ensures var row := Write(leg, p, e);
            && Abs(row.entryFee - Fee(k)) <= Q && Abs(row.exitFee - Fee(k)) <= Q
            && Abs(row.totalFees - row.entryFee - row.exitFee) <= Q
            && Abs(row.netPnl - row.pricePnl - row.distributionPnl + row.totalFees) <= MoneyTolerance
  {
    MoneyError(e.fee);
    DoubledFee(e.fee);
    MoneyError(e.fee + e.fee);
    MoneyError(e.pricePnl);
    MoneyError(e.distributionPnl);
    MoneyError(e.net);
  }

  lemma PricePnlOfBuilt(leg: Leg, k: int, p: Resolution)
    requires k > 0 && p.entry > 0.0 && Serializable(p)
    ensures var row := Build(leg, k, p);
            Abs(row.pricePnl - Times(row.quantity, row.exit - row.entry)) <= MoneyTolerance
  {
    MoneyFixed(p.entry);
    MoneyFixed(p.exitPrice);
    var row, q, x := Build(leg, k, p), Shares(leg, k, p), p.exitPrice - p.entry;
    assert row.exit - row.entry == x && row.quantity == Quantity(q) && row.pricePnl == Money(Times(q, x));
    QuantityProduct(q, x);
  }

  lemma GapProduct(q: real, cash: real, total: real)
    ensures Abs(Times(q, cash) - Times(q, total)) == Times(Abs(q), Abs(cash - total))
  {
    assert q * cash - q * total == q * (cash - total);
  }

  /** Distribution P&L against the written accruals: rounding, plus the cash gap times the shares held. */
  lemma DistributionPnlOfBuilt(leg: Leg, k: int, p: Resolution)
    requires k > 0 && p.entry > 0.0
    ensures var row := Build(leg, k, p);
            Abs(row.distributionPnl - SumTo(|row.accruals|, SignedAmounts(row.accruals)))
            <= (|p.distributions| + 1) as real * 0.000_000_000_000_000_000_5
                + Times(Abs(Shares(leg, k, p)), Abs(p.cashTotal - Total(p)))
  {
    var q, row, n := Shares(leg, k, p), Build(leg, k, p), |p.distributions|;
    assert (n + 1) as real == n as real + 1.0;
    assert row.distributionPnl == Money(Times(q, p.cashTotal)) && row.accruals == WriteAccruals(q, p.distributions);
    MoneyError(Times(q, p.cashTotal));
    SignedTotal(q, p);
    GapProduct(q, p.cashTotal, Total(p));
  }

  predicate Valid(row: Constituent, k: int)
    requires k > 0
  {
    BasisValid(row, k) && AccrualsValid(row) && MoneyValid(row, k)
  }

  /** What the validator can still hold against a built row: the candidate return, the cash total and the
      distribution P&L. Every other check passes. */
  lemma BuiltVerdict(leg: Leg, k: int, p: Resolution)
    requires k > 0 && p.entry > 0.0 && PathAccepted(p) && Serializable(p)
    ensures var row := Build(leg, k, p);
            Valid(row, k) <==>
              && CandidateKept(p) && Abs(p.cashTotal - Total(p)) <= MoneyTolerance
              && Abs(row.distributionPnl - SumTo(|row.accruals|, SignedAmounts(row.accruals))) <= MoneyTolerance
  {
    var e := Exact(leg, k, p);
    BasisOfBuilt(leg, k, p);
    AccrualsOfWritten(leg, p, e);
    WrittenTotal(e.quantity, p);
    MoneyFixed(p.cashTotal);
    FeesOfWritten(leg, k, p, e);
    PricePnlOfBuilt(leg, k, p);
  }

  // ----- how many distributions -----

  /** The written values' sum, in quanta. */
  function Units(n: nat, x: int -> real): int {
    if n == 0 then 0 else Units(n - 1, x) + HalfEven(x(n - 1) * 1_000_000_000_000_000_000.0)
  }

  /** Writing n values moves their sum by at most half a quantum each; it moves it that far only if every value ties the
      same way, and then every written value is even. */
  lemma {:induction false} UnitsBound(n: nat, x: int -> real)
    ensures NearWithin(Units(n, x), SumTo(n, x) * 1_000_000_000_000_000_000.0, n)
  {
    if n > 0 {
      UnitsBound(n - 1, x);
    }
  }

  /** So the sum written at once and the sum of the written values are closer than (n+1)/2 quanta when that is odd. */
  lemma {:induction false} SumApart(n: nat, x: int -> real)
    ensures WithinHalves(Units(n, x) - HalfEven(SumTo(n, x) * 1_000_000_000_000_000_000.0), n + 1)
  {
    UnitsBound(n, x);
    var total := SumTo(n, x) * 1_000_000_000_000_000_000.0;
    OppositeTies(n, Units(n, x), HalfEven(total), total);
  }

  lemma {:induction false} SignedUnits(q: real, distributions: seq<Accrual>, n: nat)
    requires n <= |distributions|
    ensures SumTo(n, SignedAmounts(WriteAccruals(q, distributions)))
            == Units(n, ScaledAmounts(q, distributions)) as real / 1_000_000_000_000_000_000.0
  {
    if n > 0 {
      SignedUnits(q, distributions, n - 1);
      var x := Times(q, distributions[n - 1].amount);
      assert WriteAccruals(q, distributions)[n - 1].signed == Money(x);
      assert Amounts(distributions)(n - 1) == distributions[n - 1].amount;
      assert ScaledAmounts(q, distributions)(n - 1) == Times(q, Amounts(distributions)(n - 1));
    }
  }

  /** Up to 65 distributions that add up to the cash total leave the distribution P&L within 32 quanta. */
  lemma {:induction false} ExactCashPnl(leg: Leg, k: int, p: Resolution)
    requires k > 0 && p.entry > 0.0 && p.cashTotal == Total(p) && |p.distributions| <= 65
    ensures var row := Build(leg, k, p);
            Abs(row.distributionPnl - SumTo(|row.accruals|, SignedAmounts(row.accruals))) <= MoneyTolerance
  {
    var q, n, row := Shares(leg, k, p), |p.distributions|, Build(leg, k, p);
    assert row.distributionPnl == Money(Times(q, p.cashTotal)) && row.accruals == WriteAccruals(q, p.distributions);
    ScaledTotal(q, p);
    SignedUnits(q, p.distributions, n);
    WrittenApart(n, ScaledAmounts(q, p.distributions));
  }

  lemma {:induction false} WrittenApart(n: nat, x: int -> real)
    requires n <= 65
    ensures Abs(Money(SumTo(n, x)) - Units(n, x) as real / 1_000_000_000_000_000_000.0) <= MoneyTolerance
  {
    var total, a, b := SumTo(n, x), HalfEven(SumTo(n, x) * 1_000_000_000_000_000_000.0), Units(n, x);
    assert Money(total) == a as real / 1_000_000_000_000_000_000.0;
    SumApart(n, x);
    ThirtyTwo(n, b - a);
    UnitsClose(a, b);
  }

  lemma ThirtyTwo(n: nat, gap: int)
    requires n <= 65 && WithinHalves(gap, n + 1)
    ensures -32 <= gap <= 32
  {
  }

  lemma UnitsClose(a: int, b: int)
    requires -32 <= a - b <= 32
    ensures Abs(a as real / 1_000_000_000_000_000_000.0 - b as real / 1_000_000_000_000_000_000.0) <= MoneyTolerance
  {
    assert (a - b) as real == a as real - b as real;
  }

  /** When the cash total is the sum of at most 65 distributions, the candidate return alone decides. */
  lemma CandidateDecides(leg: Leg, k: int, p: Resolution)
    requires k > 0 && p.entry > 0.0 && PathAccepted(p) && Serializable(p)
    requires p.cashTotal == Total(p) && |p.distributions| <= 65
    ensures Valid(Build(leg, k, p), k) <==> CandidateKept(p)
  {
    BuiltVerdict(leg, k, p);
    ExactCashPnl(leg, k, p);
  }

  /** Builder output passes the validator: on-grid inputs of moderate size, cash equal to the summed
      distributions, and at most 65 of them. */
  lemma BuiltIsValid(leg: Leg, k: int, p: Resolution)
    requires k > 0 && p.entry > 0.0 && PathAccepted(p) && Serializable(p) && OnGrid(p.candidate)
    requires p.cashTotal == Total(p) && |p.distributions| <= 65
    ensures Valid(Build(leg, k, p), k)
  {
    GridCandidateKept(p);
    CandidateDecides(leg, k, p);
  }

  /** Every such row passes, whatever its leg, its cohort and its path, with at most n distributions. */
  ghost predicate AlwaysValid(n: nat) {
    forall leg, k, p: Resolution :: RegularPath(k, p, n) ==> Valid(Build(leg, k, p), k)
  }

  predicate RegularPath(k: int, p: Resolution, n: nat) {
    && k > 0 && p.entry > 0.0 && PathAccepted(p) && Serializable(p) && OnGrid(p.candidate)
    && p.cashTotal == Total(p) && |p.distributions| <= n
  }

  /** Keys told apart by their length. */
  function Key(i: nat): (s: string)
    ensures |s| == i + 1
  {
    seq(i + 1, _ => 'd')
  }

  /** n dividends of three quanta. */
  function ThreeQuanta(n: nat): (r: seq<Accrual>)
    ensures |r| == n
  {
    seq(n, i requires 0 <= i < n => Accrual(1, 0.000_000_000_000_000_003, Key(i)))
  }

  function ManyDividends(n: nat): Resolution {
    var cash := n as real * 0.000_000_000_000_000_003;
    Resolution(1.0, 0, 63, 1.0, 1.0, cash, 1.0 + cash, cash, cash, ThreeQuanta(n))
  }

  lemma {:induction false} ManyAccepted(n: nat)
    ensures DistributionsAccepted(ManyDividends(n))
    ensures Serializable(ManyDividends(n)) && OnGrid(ManyDividends(n).candidate)
  {
    var paid := ThreeQuanta(n);
    forall i, j | 0 <= i < j < n ensures paid[i].key != paid[j].key {
      assert |Key(i)| != |Key(j)|;
    }
    assert n as real * 0.000_000_000_000_000_003 * 1_000_000_000_000_000_000.0 == (3 * n) as real;
    assert OnGrid(0.000_000_000_000_000_003) && OnGrid(1.0);
  }

  lemma {:induction false} ManyIsRegular(n: nat)
    ensures RegularPath(2, ManyDividends(n), n)
  {
    var p := ManyDividends(n);
    ManyAccepted(n);
    SumConstant(n, 0.000_000_000_000_000_003, Amounts(p.distributions));
    assert Reconstructed(p) == p.cashTotal;
  }

  /** Half a share of each is one and a half quanta, written as two: from 66 on, too far from the exact sum. */
  lemma {:induction false} ManyAreRejected(n: nat)
    requires n >= 66
    ensures RegularPath(2, ManyDividends(n), n) && !Valid(Build(Long, 2, ManyDividends(n)), 2)
  {
    var p := ManyDividends(n);
    ManyIsRegular(n);
    HalvedDividends(n);
    BuiltVerdict(Long, 2, p);
  }

  lemma {:induction false} HalvedDividends(n: nat)
    requires n >= 66
    ensures var row := Build(Long, 2, ManyDividends(n));
            row.distributionPnl < SumTo(|row.accruals|, SignedAmounts(row.accruals)) - MoneyTolerance
  {
    var p := ManyDividends(n);
    var row := Build(Long, 2, p);
    assert Shares(Long, 2, p) == 0.5;
    assert row.accruals == WriteAccruals(0.5, p.distributions) && row.distributionPnl == Money(Times(0.5, p.cashTotal));
    WrittenHalves(n);
    HalvesApart(n, Times(0.5, p.cashTotal));
  }

  lemma {:induction false} WrittenHalves(n: nat)
    ensures SumTo(n, SignedAmounts(WriteAccruals(0.5, ThreeQuanta(n)))) == n as real * 0.000_000_000_000_000_002
  {
    var f := SignedAmounts(WriteAccruals(0.5, ThreeQuanta(n)));
    HalfEvenUnique(1.5, 2);
    forall i | 0 <= i < n ensures f(i) == 0.000_000_000_000_000_002 {
      assert Times(0.5, ThreeQuanta(n)[i].amount) == 0.000_000_000_000_000_001_5;
    }
    SumConstant(n, 0.000_000_000_000_000_002, f);
  }

  lemma HalvesApart(n: nat, x: real)
    requires n >= 66 && x == 0.5 * (n as real * 0.000_000_000_000_000_003)
    ensures Money(x) < n as real * 0.000_000_000_000_000_002 - MoneyTolerance
  {
    MoneyError(x);
    assert n as real >= 66.0;
  }

  /** Sixty-five is the most distributions the validator bears. */
  lemma SafeUpTo65(n: nat)
    ensures AlwaysValid(n) <==> n <= 65
  {
    if n <= 65 {
      forall leg, k, p: Resolution | RegularPath(k, p, n) ensures Valid(Build(leg, k, p), k) {
        BuiltIsValid(leg, k, p);
      }
    } else {
      ManyAreRejected(n);
    }
  }

  /** A third, and a candidate return that is one part in 10^19 inside the tolerance. */
  function RoundedOut(): Resolution {
    var candidate := 0.333_333_333_332_333_333_4;
    Resolution(3.0, 0, 63, 3.0, 4.0, 0.0, 4.0, 0.333_333_333_333_333_333, candidate, [])
  }

  /** The builder accepts that path; writing the candidate takes it out of the tolerance, and the validator
      rejects the row. */
  lemma RoundedOutIsRejected(leg: Leg, k: int)
    requires k > 0
    ensures var p := RoundedOut();
            && PathAccepted(p) && Serializable(p) && p.cashTotal == Total(p) && !Valid(Build(leg, k, p), k)
  {
    var p := RoundedOut();
    HalfEvenUnique(p.candidate * 1_000_000_000_000_000_000.0, 333_333_333_332_333_333);
    assert Money(p.candidate) == 0.333_333_333_332_333_333;
    BuiltVerdict(leg, k, p);
  }

  /** The builder tolerates a cash total 1e-12 away from its distributions; the validator tolerates 32 quanta.
      Between the two the cash gap decides, as long as the shares held cannot carry the gap past the rounding
      of the distribution P&L. */
  lemma CashGapDecides(leg: Leg, k: int, p: Resolution)
    requires k > 0 && p.entry > 0.0 && PathAccepted(p) && Serializable(p)
    requires (|p.distributions| + 1) as real + 64.0 * Abs(Shares(leg, k, p)) <= 64.0
    ensures Valid(Build(leg, k, p), k) <==> CandidateKept(p) && Abs(p.cashTotal - Total(p)) <= MoneyTolerance
  {
    BuiltVerdict(leg, k, p);
    DistributionPnlOfBuilt(leg, k, p);
    var shares, gap := Abs(Shares(leg, k, p)), Abs(p.cashTotal - Total(p));
    if gap <= MoneyTolerance {
      GapBudget(shares, gap);
    }
  }

  lemma GapBudget(shares: real, gap: real)
    requires 0.0 <= gap <= MoneyTolerance && shares >= 0.0
    ensures Times(shares, gap) <= shares * 0.000_000_000_000_000_032
  {
  }

  /** Two dividends of 0.1 and 0.2 added in binary floating point: a cash total of 0.30000000000000004. */
  function FloatSummed(): Resolution {
    var cash := 0.300_000_000_000_000_04;
    var gross := 0.130_000_000_000_000_004;
    Resolution(10.0, 0, 63, 10.0, 11.0, cash, 11.0 + cash, gross, gross, [Accrual(1, 0.1, "a"), Accrual(2, 0.2, "b")])
  }

  /** The builder accepts that path and the validator rejects the row built from it. */
  lemma FloatSummedIsRejected()
    ensures var p := FloatSummed();
            PathAccepted(p) && Serializable(p) && !Valid(Build(Long, 2, p), 2)
  {
    var p, f := FloatSummed(), Amounts(FloatSummed().distributions);
    assert SumTo(2, f) == SumTo(1, f) + f(1) == SumTo(0, f) + f(0) + f(1);
    assert OnGrid(0.130_000_000_000_000_004);
    MoneyFixed(0.130_000_000_000_000_004);
    assert Shares(Long, 2, p) == 0.05;
    CashGapDecides(Long, 2, p);
  }
}
