/** Serialized rows of the two ledgers against the 5e-18 component tolerance. */
module ComponentTolerance {
  import opened Rounding
  import opened Sums
  import opened Books
  import opened Lockstep
  import opened Divergence
  import PrimaryDaily
  import ReferenceDaily

  predicate Within(x: real, y: real) { Abs(x - y) <= 0.000_000_000_000_000_005 }

  /** Every money field both ledgers write for a cohort. */
  predicate CohortWithin(p: CohortState, r: CohortState) {
    && Within(p.cash, r.cash) && Within(p.receivable, r.receivable) && Within(p.marketValue, r.marketValue)
    && Within(p.grossLong, r.grossLong) && Within(p.grossShort, r.grossShort) && Within(p.nav, r.nav)
    && Within(p.cumulativeFees, r.cumulativeFees) && Within(p.dailyPnl, r.dailyPnl)
    && Within(p.cumulativePnl, r.cumulativePnl)
  }

  /** The two written cohort states of session t are within the component tolerance. */
  predicate SessionWithin(e: Book, t: nat)
    requires t < |e.path|
  {
    CohortWithin(FixCohort(PrimaryDaily.PrimaryCohort(Written(e), t)), FixCohort(ReferenceDaily.ReferenceCohort(e, t)))
  }

  /** The fields of a name compared exactly, then those compared within the tolerance. */
  predicate NameWithin(p: NameState, r: NameState) {
    && p.mTicker == r.mTicker && p.applied == r.applied
    && p.close == r.close && p.target == r.target && p.order == r.order && p.position == r.position
    && Within(p.cashFlow, r.cashFlow) && Within(p.accrual, r.accrual) && Within(p.receivable, r.receivable)
    && Within(p.marketValue, r.marketValue) && Within(p.fee, r.fee) && Within(p.pricePnl, r.pricePnl)
    && Within(p.netPnl, r.netPnl)
  }

  /** The two written rows of name i at session t are within the component tolerance. */
  predicate NameWithinAt(e: Book, i: nat, t: nat)
    requires i < |e.items| && t < |e.path|
  {
    NameWithin(FixName(PrimaryDaily.PrimaryName(Written(e), i, t)), FixName(ReferenceDaily.ReferenceName(e, i, t)))
  }

  /** Values less than five quanta apart are written at most five quanta apart: serialization adds at most one, and
      written values differ by whole quanta. */
  lemma DriftWithin(x: real, y: real, halves: real)
    requires Abs(x - y) <= Halves(halves) && halves < 10.0
    ensures Within(Money(x), Money(y))
  {
    MoneyGap(x, y, Halves(halves));
    MoneyOnGrid(x);
    MoneyOnGrid(y);
    GridGap(Money(x), Money(y), 5);
  }

  lemma WrittenIsRegular(e: Book)
    requires Regular(e)
    ensures Regular(Written(e))
  {
    var p := Written(e);
    forall i, t | 0 <= i < |p.items| && 0 <= t < |p.path| ensures p.Close(i, t) > 0.0 {
      SameHoldings(e, i, t);
      assert e.Close(i, t) > 0.0;
    }
    forall i | 0 <= i < |p.items| ensures NothingOn(p.items[i].accruals, p.path[0]) {
      assert NothingOn(e.items[i].accruals, e.path[0]);
    }
  }

  lemma SameGrossLegs(e: Book, t: nat)
    ensures SumTo(|e.items|, Written(e).LongByLeg(t)) == SumTo(|e.items|, e.LongByLeg(t))
    ensures SumTo(|e.items|, Written(e).ShortByLeg(t)) == SumTo(|e.items|, e.ShortByLeg(t))
  {
    var p := Written(e);
    var pl, el, ps, es := p.LongByLeg(t), e.LongByLeg(t), p.ShortByLeg(t), e.ShortByLeg(t);
    forall i | 0 <= i < |e.items| ensures pl(i) == el(i) && ps(i) == es(i) {
      SameHoldings(e, i, t);
    }
    SumCongruent(|e.items|, pl, el);
    SumCongruent(|e.items|, ps, es);
  }

  lemma {:induction false} CountsMonotone(n: nat, f: int -> real, g: int -> real)
    requires forall i :: 0 <= i < n ==> f(i) <= g(i)
    ensures SumTo(n, f) <= SumTo(n, g)
  {
    if n > 0 {
      CountsMonotone(n - 1, f, g);
    }
  }

  lemma SessionCountBelow(e: Book, t: nat)
    ensures AccrualsOn(e, t) <= Accruals(e, t)
  {
    CountsMonotone(|e.items|, AppliedCountsOn(e, t), AppliedCounts(e, t));
  }

  /** A cohort row survives the component comparison whenever a + f < 10, and whenever a < 10 if the fee is a whole
      number of quanta. */
  lemma CohortRowWithin(e: Book, t: nat)
    requires Regular(e) && t < |e.path|
    requires RoundedFees(e, t) as real + Accruals(e, t) < 10.0
    ensures SessionWithin(e, t)
  {
    var p := Written(e);
    WrittenIsRegular(e);
    SameCohort(p, t);
    CohortRowDrift(e, t);
    SameExposure(e, t);
    var x, y := ReferenceDaily.ReferenceCohort(p, t), ReferenceDaily.ReferenceCohort(e, t);
    var halves := RoundedFees(e, t) as real + Accruals(e, t);
    DriftWithin(x.cash, y.cash, halves);
    DriftWithin(x.receivable, y.receivable, halves);
    DriftWithin(x.nav, y.nav, halves);
    DriftWithin(x.cumulativeFees, y.cumulativeFees, halves);
    DriftWithin(x.dailyPnl, y.dailyPnl, halves);
    DriftWithin(x.cumulativePnl, y.cumulativePnl, halves);
  }

  lemma {:induction false} CohortRowDrift(e: Book, t: nat)
    requires Regular(e) && t < |e.path|
    ensures var x, y, halves := ReferenceDaily.ReferenceCohort(Written(e), t), ReferenceDaily.ReferenceCohort(e, t),
                                Halves(RoundedFees(e, t) as real + Accruals(e, t));
            && Abs(x.cash - y.cash) <= halves && Abs(x.receivable - y.receivable) <= halves
            && Abs(x.nav - y.nav) <= halves && Abs(x.cumulativeFees - y.cumulativeFees) <= halves
            && Abs(x.dailyPnl - y.dailyPnl) <= halves && Abs(x.cumulativePnl - y.cumulativePnl) <= halves
  {
    WrittenIsRegular(e);
    DivergenceBound(e, t);
    SameReceivable(e, t);
    SameReceivable(Written(e), t);
    CountsAreNatural(e, t);
    DailyRowDrift(e, t);
  }

  lemma SameExposure(e: Book, t: nat)
    requires Regular(e) && t < |e.path|
    ensures var x, y := ReferenceDaily.ReferenceCohort(Written(e), t), ReferenceDaily.ReferenceCohort(e, t);
            x.marketValue == y.marketValue && x.grossLong == y.grossLong && x.grossShort == y.grossShort
  {
    SameMarket(e, t);
    SameGrossLegs(e, t);
  }

  lemma DailyRowDrift(e: Book, t: nat)
    requires Regular(e) && t < |e.path|
    ensures Abs((Written(e).Nav(1, t) - Written(e).Nav(1, t - 1)) - (e.Nav(1, t) - e.Nav(1, t - 1)))
            <= Halves(RoundedFees(e, t) as real + Accruals(e, t))
  {
    var p := Written(e);
    WrittenIsRegular(e);
    DailyDrift(e, t);
    SessionCountBelow(e, t);
    assert RoundedFees(e, 0) <= RoundedFees(e, t);
    SameNav(e, t);
    SameNav(p, t);
    SameNav(e, t - 1);
    SameNav(p, t - 1);
  }

  lemma CountsAreNatural(e: Book, t: nat)
    ensures Accruals(e, t) >= 0.0
  {
    var zero := (j: int) => 0.0;
    CountsMonotone(|e.items|, zero, AppliedCounts(e, t));
    SumConstant(|e.items|, 0.0, zero);
  }

  /** Holdings, orders and prices are the same numbers in both books. */
  lemma NameRowHoldings(e: Book, i: nat, t: nat)
    requires i < |e.items| && t < |e.path|
    ensures var x, y := ReferenceDaily.ReferenceName(Written(e), i, t), ReferenceDaily.ReferenceName(e, i, t);
            && x.mTicker == y.mTicker && x.close == y.close && x.target == y.target && x.order == y.order
            && x.position == y.position && x.cashFlow == y.cashFlow && x.marketValue == y.marketValue
            && x.pricePnl == y.pricePnl && x.applied == y.applied && x.fee == Money(y.fee)
  {
    SameHoldings(e, i, t);
    DatedRounding(e.items[i].accruals, e.path[t]);
    MoneyFixed(0.0);
  }

  /** The drift of a name's session P&L: its accruals of the session, and its fee. */
  lemma NameRowDrift(e: Book, i: nat, t: nat, fee: real)
    requires Regular(e) && i < |e.items| && t < |e.path|
    requires 0.0 <= fee && Abs(Written(e).FeeOn(i, t) - e.FeeOn(i, t)) <= Halves(fee)
    ensures var x, y, halves := ReferenceDaily.ReferenceName(Written(e), i, t), ReferenceDaily.ReferenceName(e, i, t),
                                Halves(fee + AppliedTo(e, i, t) as real);
            Abs(x.accrual - y.accrual) <= halves && Abs(x.receivable - y.receivable) <= halves
            && Abs(x.netPnl - y.netPnl) <= halves
  {
    var p := Written(e);
    AccruedOnRounding(e, i, t);
    AccruedRounding(e, i, t);
    WrittenIsRegular(e);
    SameAccrued(e, i, t);
    SameAccrued(p, i, t);
    NameRowHoldings(e, i, t);
  }

  lemma FeeRowDrift(e: Book, i: nat, t: nat)
    requires i < |e.items| && t < |e.path|
    ensures Abs(Written(e).FeeOn(i, t) - e.FeeOn(i, t)) <= if FeesOnGrid(e) then 0.0 else Halves(1.0)
  {
    FeeRounding(e, i);
  }

  /** A name's row survives while at most eight accruals (nine when the fee is on the grid) were applied to it. */
  lemma NameRowWithin(e: Book, i: nat, t: nat)
    requires Regular(e) && i < |e.items| && t < |e.path|
    requires (if FeesOnGrid(e) then 0 else 1) + AppliedTo(e, i, t) < 10
    ensures NameWithinAt(e, i, t)
  {
    FeeRowDrift(e, i, t);
    NameHalvesPass(e, i, t, if FeesOnGrid(e) then 0.0 else 1.0);
  }

  /** Under ten half-quanta, one for each accrual and those of the fee, a name's row survives. */
  lemma NameHalvesPass(e: Book, i: nat, t: nat, fee: real)
    requires Regular(e) && i < |e.items| && t < |e.path|
    requires 0.0 <= fee && Abs(Written(e).FeeOn(i, t) - e.FeeOn(i, t)) <= Halves(fee)
    requires fee + AppliedTo(e, i, t) as real < 10.0
    ensures NameWithinAt(e, i, t)
  {
    var p := Written(e);
    WrittenIsRegular(e);
    SameName(p, i, t);
    NameRowHoldings(e, i, t);
    NameRowDrift(e, i, t, fee);
    var x, y := ReferenceDaily.ReferenceName(p, i, t), ReferenceDaily.ReferenceName(e, i, t);
    var halves := fee + AppliedTo(e, i, t) as real;
    DriftWithin(x.accrual, y.accrual, halves);
    DriftWithin(x.receivable, y.receivable, halves);
    DriftWithin(x.netPnl, y.netPnl, halves);
    MoneyOnGrid(y.fee);
    MoneyFixed(Money(y.fee));
  }
}
