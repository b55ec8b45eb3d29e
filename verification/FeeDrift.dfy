/** What the ledger's fee rule does to the component comparison: the serialized fee 0.003/k is charged 4k times, so
    the rounding error of one fee is multiplied by 4k at exit. Cash carries nothing but that error, whatever the cohort
    distributes; without distributions it decides every field. */
module FeeDrift {
  import opened Rounding
  import opened Residues
  import opened Sums
  import opened Books
  import opened Lockstep
  import opened Divergence
  import opened ComponentTolerance
  import PrimaryDaily
  import ReferenceDaily

  /** One-way fee rate, 0.003, in quanta. */
  const RateQuanta: int := 3_000_000_000_000_000

  /** k times the written fee, minus the rate, in quanta. */
  function Residue(k: int): int
    requires k > 0
  {
    Miss(RateQuanta, k)
  }

  lemma ResidueIsRemainder(k: int)
    requires k > 0
    ensures var r := RateQuanta % k;
            && (2 * r < k ==> Residue(k) == -r)
            && (2 * r > k ==> Residue(k) == k - r)
            && (2 * r == k ==> Residue(k) == r || Residue(k) == -r)
  {
    NearestMultiple(RateQuanta, k);
  }

  /** 3*10^15 is 0, 1 or -1 modulo k. */
  predicate FeeRule(k: int)
    requires k > 0
  {
    RateQuanta % k <= 1 || RateQuanta % k == k - 1
  }

  /** At most one quantum of residue exactly under that rule. */
  lemma SmallResidue(k: int)
    requires k > 0
    ensures -1 <= Residue(k) <= 1 <==> FeeRule(k)
  {
    ResidueIsRemainder(k);
  }

  /** No residue exactly when k divides 3*10^15. */
  lemma NoResidue(k: int)
    requires k > 0
    ensures Residue(k) == 0 <==> RateQuanta % k == 0
  {
    ResidueIsRemainder(k);
  }

  /** A cohort of two legs of k names, with the ledger's fee. */
  predicate LedgerFees(e: Book, k: int) {
    && Regular(e) && k > 0 && |e.items| == 2 * k
    && forall i :: 0 <= i < |e.items| ==>
         e.items[i].entryFee == 0.003 / k as real && e.items[i].exitFee == 0.003 / k as real
  }

  predicate AccrualFree(e: Book) { forall i :: 0 <= i < |e.items| ==> e.items[i].accruals == [] }

  lemma WrittenFee(k: int)
    requires k > 0
    ensures k as real * Money(0.003 / k as real) == 0.003 + Quanta(Residue(k))
  {
    WrittenShare(RateQuanta, k);
  }

  /** Times the residue is charged: twice at entry, four times from exit on. */
  function Multiple(e: Book, t: int): int { if 0 < t == e.Last() then 4 else 2 }

  lemma {:induction false} FeeTotals(e: Book, k: int, t: nat)
    requires LedgerFees(e, k) && t < |e.path|
    ensures SumTo(|e.items|, Written(e).Fees(t)) - SumTo(|e.items|, e.Fees(t)) == Quanta(Overcharge(e, k, t))
  {
    var fee, written, m := 0.003 / k as real, Money(0.003 / k as real), Residue(k);
    WrittenFee(k);
    assert k as real * fee == 0.003;
    EqualFees(e, t, k, fee, 0.003);
    EqualFees(Written(e), t, k, written, 0.003 + Quanta(m));
    ChargedTimes(0.003, m);
  }

  lemma ChargedTimes(leg: real, m: int)
    ensures 4.0 * (leg + Quanta(m)) - 4.0 * leg == Quanta(4 * m)
    ensures 2.0 * (leg + Quanta(m)) - 2.0 * leg == Quanta(2 * m)
  {
    QuantaScale(m);
  }

  lemma EqualFees(b: Book, t: nat, k: int, fee: real, leg: real)
    requires |b.items| == 2 * k && t < |b.path| && leg == k as real * fee
    requires forall i :: 0 <= i < |b.items| ==> b.items[i].entryFee == fee && b.items[i].exitFee == fee
    ensures SumTo(|b.items|, b.Fees(t)) == if 0 < t == b.Last() then 4.0 * leg else 2.0 * leg
  {
    var each := if 0 < t == b.Last() then fee + fee else fee;
    SumConstant(2 * k, each, b.Fees(t));
    assert (2 * k) as real == 2.0 * k as real;
    assert (2.0 * k as real) * fee == 2.0 * leg;
    assert (2.0 * k as real) * (fee + fee) == 4.0 * leg;
  }

  lemma QuantaScale(n: int)
    ensures Quanta(4 * n) == 4.0 * Quanta(n) && Quanta(2 * n) == 2.0 * Quanta(n)
  {
  }

  lemma {:induction false} NoAccrued(e: Book, i: nat, t: int)
    requires i < |e.items| && e.items[i].accruals == []
    ensures e.Accrued(i, 1, t) == 0.0
    decreases t
  {
    if t >= 1 {
      NoAccrued(e, i, t - 1);
    }
  }

  lemma NoReceivable(e: Book, t: int)
    requires AccrualFree(e)
    ensures e.Receivable(1, t) == 0.0
  {
    var f := e.Receivables(1, t);
    forall i | 0 <= i < |e.items| ensures f(i) == 0.0 {
      NoAccrued(e, i, t);
    }
    SumConstant(|e.items|, 0.0, f);
  }

  /** How far the written fees through session t exceed the exact ones, in quanta: an even number of them. */
  function Overcharge(e: Book, k: int, t: int): int
    requires k > 0
  {
    Multiple(e, t) * Residue(k)
  }

  /** Cash drifts by that and by nothing else, whatever the cohort distributes. */
  lemma CashDrift(e: Book, k: int, t: nat)
    requires LedgerFees(e, k) && t < |e.path|
    ensures Written(e).Cash(t) == e.Cash(t) - Quanta(Overcharge(e, k, t))
    ensures SumTo(|e.items|, Written(e).Fees(t)) - SumTo(|e.items|, e.Fees(t)) == Quanta(Overcharge(e, k, t))
  {
    FeeTotals(e, k, t);
    CashDriftIsFees(e, t);
  }

  /** Without distributions every total drifts by as much. */
  lemma TotalsDrift(e: Book, k: int, t: nat)
    requires LedgerFees(e, k) && AccrualFree(e) && t < |e.path|
    ensures Written(e).Cash(t) == e.Cash(t) - Quanta(Overcharge(e, k, t))
    ensures Written(e).Receivable(1, t) == e.Receivable(1, t)
    ensures Written(e).Nav(1, t) == e.Nav(1, t) - Quanta(Overcharge(e, k, t))
  {
    CashDrift(e, k, t);
    SameMarket(e, t);
    NoReceivable(e, t);
    NoReceivable(Written(e), t);
  }

  /** An even number of quanta survives serialization unchanged. */
  lemma EvenDrift(x: real, y: real, d: int)
    requires x == y - Quanta(d) && d % 2 == 0
    ensures Money(x) == Money(y) - Quanta(d)
  {
    assert x == y + (-d) as real / 1_000_000_000_000_000_000.0;
    MoneyShift(y, -d);
  }

  lemma EvenWithin(x: real, y: real, d: int)
    requires x == y - Quanta(d) && d % 2 == 0
    ensures Within(Money(x), Money(y)) <==> -5 <= d <= 5
  {
    EvenDrift(x, y, d);
  }

  /** Times it is charged on session t itself. */
  function DailyMultiple(e: Book, t: int): int { if t == 0 || t == e.Last() then 2 else 0 }

  function DailyOvercharge(e: Book, k: int, t: int): int
    requires k > 0
  {
    DailyMultiple(e, t) * Residue(k)
  }

  /** Rows that differ by an even number d of quanta in every total, and less in the day's P&L. */
  lemma RowAgreement(x: CohortState, y: CohortState, d: int, day: int)
    requires d % 2 == 0 && day % 2 == 0 && (d >= 0 ==> 0 <= day <= d) && (d <= 0 ==> d <= day <= 0)
    requires x.cash == y.cash - Quanta(d) && x.nav == y.nav - Quanta(d)
        && x.cumulativePnl == y.cumulativePnl - Quanta(d)
    requires y.cumulativeFees == x.cumulativeFees - Quanta(d) && x.dailyPnl == y.dailyPnl - Quanta(day)
    requires x.receivable == y.receivable && x.marketValue == y.marketValue
    requires x.grossLong == y.grossLong && x.grossShort == y.grossShort
    ensures CohortWithin(FixCohort(x), FixCohort(y)) <==> -5 <= d <= 5
  {
    EvenWithin(x.cash, y.cash, d);
    EvenWithin(x.nav, y.nav, d);
    EvenWithin(x.cumulativePnl, y.cumulativePnl, d);
    EvenWithin(y.cumulativeFees, x.cumulativeFees, d);
    EvenWithin(x.dailyPnl, y.dailyPnl, day);
  }

  /** At session t the written rows agree within the tolerance exactly when the accumulated residue is at most
      five quanta. */
  lemma SessionAgreement(e: Book, k: int, t: nat)
    requires LedgerFees(e, k) && AccrualFree(e) && t < |e.path|
    ensures SessionWithin(e, t) <==> -5 <= Overcharge(e, k, t) <= 5
  {
    WrittenIsRegular(e);
    SameCohort(Written(e), t);
    var d, day := Overcharge(e, k, t), DailyOvercharge(e, k, t);
    SessionDrift(e, k, t, d, day);
    Multiples(e, t, Residue(k));
    RowAgreement(ReferenceDaily.ReferenceCohort(Written(e), t), ReferenceDaily.ReferenceCohort(e, t), d, day);
  }

  lemma Multiples(e: Book, t: nat, m: int)
    requires 0 < |e.path| && t < |e.path|
    ensures var d, day := Multiple(e, t) * m, DailyMultiple(e, t) * m;
            d % 2 == 0 && day % 2 == 0 && (d >= 0 ==> 0 <= day <= d) && (d <= 0 ==> d <= day <= 0)
  {
    if 0 < t == e.Last() {
      assert Multiple(e, t) * m == 4 * m && DailyMultiple(e, t) * m == 2 * m;
    } else if t == 0 {
      assert Multiple(e, t) * m == 2 * m && DailyMultiple(e, t) * m == 2 * m;
    } else {
      assert Multiple(e, t) * m == 2 * m && DailyMultiple(e, t) * m == 0;
    }
  }

  lemma SessionDrift(e: Book, k: int, t: nat, d: int, day: int)
    requires LedgerFees(e, k) && AccrualFree(e) && t < |e.path| && d == Overcharge(e, k, t)
        && day == DailyOvercharge(e, k, t)
    ensures var x, y := ReferenceDaily.ReferenceCohort(Written(e), t), ReferenceDaily.ReferenceCohort(e, t);
            && x.cash == y.cash - Quanta(d) && x.nav == y.nav - Quanta(d)
            && x.cumulativePnl == y.cumulativePnl - Quanta(d) && y.cumulativeFees == x.cumulativeFees - Quanta(d)
            && x.dailyPnl == y.dailyPnl - Quanta(day) && x.receivable == y.receivable
            && x.marketValue == y.marketValue && x.grossLong == y.grossLong && x.grossShort == y.grossShort
  {
    TotalsDrift(e, k, t);
    FeeTotals(e, k, t);
    DailyAgreement(e, k, t);
    SameMarket(e, t);
    SameGrossLegs(e, t);
  }

  lemma DailyAgreement(e: Book, k: int, t: nat)
    requires LedgerFees(e, k) && AccrualFree(e) && t < |e.path|
    ensures Written(e).Nav(1, t) - Written(e).Nav(1, t - 1) ==
            e.Nav(1, t) - e.Nav(1, t - 1) - Quanta(DailyOvercharge(e, k, t))
  {
    TotalsDrift(e, k, t);
    if t > 0 {
      TotalsDrift(e, k, t - 1);
    }
  }

  /** A session of any cohort can only pass while the accumulated residue is at most five quanta: cash sees nothing
      else, and an even number of quanta survives serialization. */
  lemma CashDecides(e: Book, k: int, t: nat)
    requires LedgerFees(e, k) && t < |e.path| && SessionWithin(e, t)
    ensures -5 <= Overcharge(e, k, t) <= 5
  {
    CashDrift(e, k, t);
    Multiples(e, t, Residue(k));
    EvenWithin(Written(e).Cash(t), e.Cash(t), Overcharge(e, k, t));
  }

  /** Two correct ledgers pass the cohort-level comparison at every session only if 3*10^15 leaves remainder 0, 1 or
      k-1 modulo the names per leg. */
  lemma FeeRuleNecessary(e: Book, k: int)
    requires LedgerFees(e, k) && forall t :: 0 <= t < |e.path| ==> SessionWithin(e, t)
    ensures FeeRule(k)
  {
    SmallResidue(k);
    CashDecides(e, k, |e.path| - 1);
  }

  /** And if the cohort distributes nothing, that is enough. */
  lemma FeeRuleDecides(e: Book, k: int)
    requires LedgerFees(e, k) && AccrualFree(e)
    ensures (forall t :: 0 <= t < |e.path| ==> SessionWithin(e, t)) <==> FeeRule(k)
  {
    SmallResidue(k);
    if -1 <= Residue(k) <= 1 {
      forall t | 0 <= t < |e.path| ensures SessionWithin(e, t) {
        SessionAgreement(e, k, t);
      }
    } else if forall t :: 0 <= t < |e.path| ==> SessionWithin(e, t) {
      FeeRuleNecessary(e, k);
    }
  }

  lemma SevenNamesResidue()
    ensures Residue(7) == 3
  {
    assert RateQuanta % 7 == 4;
    ResidueIsRemainder(7);
  }

  /** Seven is the first leg size that fails: with seven names per leg the written fees exceed 1.2% by twelve quanta,
      whatever the cohort distributes. */
  lemma {:induction false} SevenNamesFail(e: Book)
    requires LedgerFees(e, 7)
    ensures !SessionWithin(e, |e.path| - 1)
  {
    SevenNamesResidue();
    if SessionWithin(e, |e.path| - 1) {
      CashDecides(e, 7, |e.path| - 1);
    }
  }

  lemma SmallerLegsHaveNoResidue(k: int)
    requires 0 < k < 7
    ensures Residue(k) == 0
  {
    assert RateQuanta % 1 == 0 && RateQuanta % 2 == 0 && RateQuanta % 3 == 0;
    assert RateQuanta % 4 == 0 && RateQuanta % 5 == 0 && RateQuanta % 6 == 0;
    NoResidue(k);
  }

  // ----- with distributions -----

  /** What session t accrues, in the written book and in the exact one. */
  lemma {:induction false} NewReceivable(b: Book, t: nat)
    ensures b.Receivable(0, t) - b.Receivable(0, t - 1) == SumTo(|b.items|, PrimaryDaily.AccrualsOn(b, t))
  {
    SumOfDifferences(|b.items|, b.Receivables(0, t), b.Receivables(0, t - 1), PrimaryDaily.AccrualsOn(b, t));
  }

  lemma {:induction false} NewReceivableDrift(e: Book, t: nat)
    ensures Abs((Written(e).Receivable(0, t) - Written(e).Receivable(0, t - 1))
                - (e.Receivable(0, t) - e.Receivable(0, t - 1))) <= Halves(AccrualsOn(e, t))
  {
    var n, budgets := |e.items|, DayBudgets(e, t);
    var f, g := PrimaryDaily.AccrualsOn(Written(e), t), PrimaryDaily.AccrualsOn(e, t);
    NewReceivable(Written(e), t);
    NewReceivable(e, t);
    forall i | 0 <= i < n ensures Abs(f(i) - g(i)) <= budgets(i) {
      AccruedOnRounding(e, i, t);
    }
    SumBudget(n, f, g, budgets);
    BudgetSum(n, AppliedCountsOn(e, t), budgets);
  }

  /** Two half-quanta per quantum of fee drift, one per accrual. */
  function HalfQuanta(e: Book, k: int, t: int): real
    requires k > 0
  {
    2.0 * Abs(Overcharge(e, k, t) as real) + Accruals(e, t)
  }

  lemma NavDrift(e: Book, k: int, t: nat)
    requires LedgerFees(e, k) && t < |e.path|
    ensures Abs(Written(e).Nav(0, t) - e.Nav(0, t)) <= Halves(HalfQuanta(e, k, t))
  {
    CashDrift(e, k, t);
    SameMarket(e, t);
    ReceivableDrift(e, t);
    DriftsAddUp(Overcharge(e, k, t), Written(e).Receivable(0, t) - e.Receivable(0, t), Accruals(e, t));
  }

  lemma DriftsAddUp(d: int, rest: real, a: real)
    requires Abs(rest) <= Halves(a)
    ensures Abs(rest - Quanta(d)) <= Halves(2.0 * Abs(d as real) + a)
  {
  }

  lemma {:induction false} DayDrift(e: Book, k: int, t: nat)
    requires LedgerFees(e, k) && t < |e.path|
    ensures Abs((Written(e).Nav(0, t) - Written(e).Nav(0, t - 1)) - (e.Nav(0, t) - e.Nav(0, t - 1)))
            <= Halves(HalfQuanta(e, k, t))
  {
    if t == 0 {
      NavDrift(e, k, 0);
    } else {
      var day, p := DailyOvercharge(e, k, t), Written(e);
      CashDrift(e, k, t);
      CashDrift(e, k, t - 1);
      SameMarket(e, t);
      SameMarket(e, t - 1);
      NewReceivableDrift(e, t);
      SessionCountBelow(e, t);
      Multiples(e, t, Residue(k));
      QuantaDifference(Overcharge(e, k, t), Overcharge(e, k, t - 1), day);
      var rest := (p.Receivable(0, t) - p.Receivable(0, t - 1)) - (e.Receivable(0, t) - e.Receivable(0, t - 1));
      DriftsAddUp(day, rest, AccrualsOn(e, t));
      assert Abs(day as real) <= Abs(Overcharge(e, k, t) as real);
    }
  }

  lemma QuantaDifference(d: int, before: int, day: int)
    requires d - before == day
    ensures Quanta(d) - Quanta(before) == Quanta(day)
  {
  }

  /** Cash and fees d quanta apart, the other money within so many half-quanta, market values the same. */
  predicate NearStates(x: CohortState, y: CohortState, d: int, halves: real) {
    && x.cash == y.cash - Quanta(d) && y.cumulativeFees == x.cumulativeFees - Quanta(d)
    && Abs(x.receivable - y.receivable) <= Halves(halves) && Abs(x.nav - y.nav) <= Halves(halves)
    && Abs(x.dailyPnl - y.dailyPnl) <= Halves(halves) && Abs(x.cumulativePnl - y.cumulativePnl) <= Halves(halves)
    && x.marketValue == y.marketValue && x.grossLong == y.grossLong && x.grossShort == y.grossShort
  }

  /** States this near are written within the tolerance. */
  lemma NearIsWithin(x: CohortState, y: CohortState, d: int, halves: real)
    requires NearStates(x, y, d, halves) && halves < 10.0 && d % 2 == 0 && -5 <= d <= 5
    ensures CohortWithin(FixCohort(x), FixCohort(y))
  {
    EvenWithin(x.cash, y.cash, d);
    EvenWithin(y.cumulativeFees, x.cumulativeFees, d);
    DriftWithin(x.receivable, y.receivable, halves);
    DriftWithin(x.nav, y.nav, halves);
    DriftWithin(x.dailyPnl, y.dailyPnl, halves);
    DriftWithin(x.cumulativePnl, y.cumulativePnl, halves);
  }

  lemma {:induction false} CohortIsNear(e: Book, k: int, t: nat)
    requires LedgerFees(e, k) && t < |e.path|
    ensures NearStates(ReferenceDaily.ReferenceCohort(Written(e), t), ReferenceDaily.ReferenceCohort(e, t),
                       Overcharge(e, k, t), HalfQuanta(e, k, t))
  {
    var p := Written(e);
    WrittenIsRegular(e);
    SameNav(p, t);
    SameNav(e, t);
    SameNav(p, t - 1);
    SameNav(e, t - 1);
    SameReceivable(p, t);
    SameReceivable(e, t);
    SameMarket(e, t);
    SameGrossLegs(e, t);
    CashDrift(e, k, t);
    NavDrift(e, k, t);
    DayDrift(e, k, t);
    ReceivableDrift(e, t);
  }

  /** Under ten half-quanta a session of a ledger cohort passes. */
  lemma {:induction false} FewHalvesPass(e: Book, k: int, t: nat)
    requires LedgerFees(e, k) && t < |e.path| && HalfQuanta(e, k, t) < 10.0
    ensures SessionWithin(e, t)
  {
    var x, y := ReferenceDaily.ReferenceCohort(Written(e), t), ReferenceDaily.ReferenceCohort(e, t);
    WrittenIsRegular(e);
    SameCohort(Written(e), t);
    CohortIsNear(e, k, t);
    CountsAreNatural(e, t);
    Multiples(e, t, Residue(k));
    NearIsWithin(x, y, Overcharge(e, k, t), HalfQuanta(e, k, t));
  }

  /** Four residues and a accruals, in half-quanta: what a cohort of k names per leg can come to by exit. */
  predicate UnderTen(k: int, a: nat)
    requires k > 0
  {
    8.0 * Abs(Residue(k) as real) + a as real < 10.0
  }

  /** The same, read off the remainder: nine distributions when k divides 3*10^15, one when it misses by one. */
  lemma UnderTenByRemainder(k: int, a: nat)
    requires k > 0
    ensures UnderTen(k, a) <==> if RateQuanta % k == 0 then a <= 9 else FeeRule(k) && a <= 1
  {
    NoResidue(k);
    SmallResidue(k);
    var m := Residue(k);
    assert m == 0 || m >= 1 || m <= -1;
    assert m >= 2 || m <= -2 ==> Abs(m as real) >= 2.0;
  }

  lemma FourResidues(e: Book, k: int, t: nat)
    requires k > 0 && t < |e.path|
    ensures HalfQuanta(e, k, t) <= 8.0 * Abs(Residue(k) as real) + Accruals(e, t)
  {
    var m := Residue(k);
    if 0 < t == e.Last() {
      assert Overcharge(e, k, t) == 4 * m;
    } else {
      assert Overcharge(e, k, t) == 2 * m;
    }
  }

  // ----- one name -----

  /** A name's written fee misses the exact one by a k-th of the residue. */
  lemma FeeMiss(k: int)
    requires k > 0
    ensures Money(0.003 / k as real) - 0.003 / k as real == Quanta(Residue(k)) / k as real
  {
    WrittenFee(k);
    var kr, w, f := k as real, Money(0.003 / k as real), 0.003 / k as real;
    assert kr * f == 0.003;
    assert (w - f) * kr == Quanta(Residue(k));
  }

  /** In half-quanta. */
  function FeeHalves(k: int): real
    requires k > 0
  {
    2.0 * Abs(Residue(k) as real) / k as real
  }

  lemma {:induction false} NameFeeDrift(e: Book, k: int, i: nat, t: nat)
    requires LedgerFees(e, k) && i < |e.items| && t < |e.path|
    ensures Abs(Written(e).FeeOn(i, t) - e.FeeOn(i, t)) <= Halves(FeeHalves(k))
  {
    FeeMiss(k);
    HalvesOfShare(Residue(k), k);
  }

  lemma HalvesOfShare(m: int, k: int)
    requires k > 0
    ensures Abs(Quanta(m) / k as real) == Halves(2.0 * Abs(m as real) / k as real) >= 0.0
  {
    var kr, n := k as real, Abs(m as real);
    assert n / kr >= 0.0;
    assert 2.0 * n / kr == 2.0 * (n / kr);
    assert Quanta(m) / kr == (m as real / kr) / 1_000_000_000_000_000_000.0;
    assert (-n) / kr == -(n / kr);
  }

  /** A name of a ledger cohort passes while its accruals and its fee stay under ten half-quanta. */
  lemma LedgerNamePasses(e: Book, k: int, i: nat, t: nat)
    requires LedgerFees(e, k) && i < |e.items| && t < |e.path| && FeeHalves(k) + AppliedTo(e, i, t) as real < 10.0
    ensures NameWithinAt(e, i, t)
  {
    NameFeeDrift(e, k, i, t);
    HalvesOfShare(Residue(k), k);
    NameHalvesPass(e, i, t, FeeHalves(k));
  }
}
