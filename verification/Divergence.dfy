/** Rounding-error analysis. The primary loop replays serialized fees and accruals, the reference loop exact
    ones; this module bounds how far the two ledgers drift apart, and decides when the 5e-18 component
    tolerance of analysis/pead_daily_reconciliation.py absorbs it. */
module Divergence {
  import opened Rounding
  import opened Sums
  import opened Books
  import opened BookLaws

  function WrittenAccruals(accruals: seq<Accrual>): seq<Accrual> {
    seq(|accruals|, i requires 0 <= i < |accruals| => accruals[i].(amount := Money(accruals[i].amount)))
  }

  function WrittenItem(item: Item): Item {
    item.(entryFee := Money(item.entryFee), exitFee := Money(item.exitFee), accruals := WrittenAccruals(item.accruals))
  }

  /** The book the primary loop sees: same holdings and prices, fees and accruals as serialized. */
  function Written(e: Book): (p: Book)
    ensures |p.items| == |e.items| && p.path == e.path && p.prices == e.prices
  {
    e.(items := seq(|e.items|, i requires 0 <= i < |e.items| => WrittenItem(e.items[i])))
  }

  /** n half-quanta of money. */
  function Halves(n: real): real { n / 2_000_000_000_000_000_000.0 }

  /** Distribution actions applied to name i on session t, and up to it. */
  function AppliedOn(e: Book, i: int, t: int): nat {
    if 0 <= i < |e.items| && 0 <= t < |e.path| then |DatedKeys(e.items[i].accruals, e.path[t])| else 0
  }

  function AppliedTo(e: Book, i: int, t: int): nat {
    if t < 0 then 0 else AppliedTo(e, i, t - 1) + AppliedOn(e, i, t)
  }

  function AppliedCounts(e: Book, t: int): int -> real { i => AppliedTo(e, i, t) as real }

  function AppliedCountsOn(e: Book, t: int): int -> real { i => AppliedOn(e, i, t) as real }

  /** a: serialized accruals booked by the cohort through session t. */
  function Accruals(e: Book, t: int): real { SumTo(|e.items|, AppliedCounts(e, t)) }

  function AccrualsOn(e: Book, t: int): real { SumTo(|e.items|, AppliedCountsOn(e, t)) }

  /** f: serialized fees charged by the cohort through session t. */
  function FeesCharged(e: Book, t: int): nat { if 0 < t == e.Last() then 2 * |e.items| else |e.items| }

  /** Every fee is a whole number of quanta, so writing it loses nothing. */
  predicate FeesOnGrid(e: Book) {
    forall i :: 0 <= i < |e.items| ==> OnGrid(e.items[i].entryFee) && OnGrid(e.items[i].exitFee)
  }

  /** The fees whose writing can lose something: all that were charged, or none when they are on the grid. */
  function RoundedFees(e: Book, t: int): nat { if FeesOnGrid(e) then 0 else FeesCharged(e, t) }

  lemma {:induction false} DatedRounding(accruals: seq<Accrual>, day: int)
    ensures Abs(DatedTotal(WrittenAccruals(accruals), day) - DatedTotal(accruals, day))
            <= Halves(|DatedKeys(accruals, day)| as real)
    ensures DatedKeys(WrittenAccruals(accruals), day) == DatedKeys(accruals, day)
  {
    if accruals != [] {
      var front, last := accruals[..|accruals| - 1], accruals[|accruals| - 1];
      DatedRounding(front, day);
      MoneyError(last.amount);
      assert WrittenAccruals(accruals)[..|accruals| - 1] == WrittenAccruals(front);
      assert |DatedKeys(accruals, day)| == |DatedKeys(front, day)| + (if last.date == day then 1 else 0);
    }
  }

  lemma AccruedOnRounding(e: Book, i: nat, t: int)
    requires i < |e.items|
    ensures Abs(Written(e).AccruedOn(i, t) - e.AccruedOn(i, t)) <= Halves(AppliedOn(e, i, t) as real)
  {
    if 0 <= t < |e.path| {
      DatedRounding(e.items[i].accruals, e.path[t]);
    }
  }

  lemma {:induction false} AccruedRounding(e: Book, i: nat, t: int)
    requires i < |e.items|
    ensures Abs(Written(e).Accrued(i, 0, t) - e.Accrued(i, 0, t)) <= Halves(AppliedTo(e, i, t) as real)
    decreases t
  {
    if t >= 0 {
      AccruedRounding(e, i, t - 1);
      AccruedOnRounding(e, i, t);
    }
  }

  function AccrualBudgets(e: Book, t: int): int -> real { i => Halves(AppliedTo(e, i, t) as real) }

  lemma {:induction false} BudgetSum(n: nat, counts: int -> real, budgets: int -> real)
    requires forall i :: 0 <= i < n ==> budgets(i) == Halves(counts(i))
    ensures SumTo(n, budgets) == Halves(SumTo(n, counts))
  {
    if n > 0 {
      BudgetSum(n - 1, counts, budgets);
    }
  }

  /** The receivables drift by at most half a quantum per serialized accrual. */
  lemma ReceivableDrift(e: Book, t: nat)
    ensures Abs(Written(e).Receivable(0, t) - e.Receivable(0, t)) <= Halves(Accruals(e, t))
  {
    var n, f, g, budgets := |e.items|, Written(e).Receivables(0, t), e.Receivables(0, t), AccrualBudgets(e, t);
    forall i | 0 <= i < n ensures Abs(f(i) - g(i)) <= budgets(i) {
      AccruedRounding(e, i, t);
      assert f(i) == Written(e).Accrued(i, 0, t) && g(i) == e.Accrued(i, 0, t);
      assert budgets(i) == Halves(AppliedTo(e, i, t) as real);
    }
    SumBudget(n, f, g, budgets);
    BudgetSum(n, AppliedCounts(e, t), budgets);
  }

  lemma FeeRounding(e: Book, i: nat)
    requires i < |e.items|
    ensures Abs(Money(e.items[i].entryFee) - e.items[i].entryFee) <= if FeesOnGrid(e) then 0.0 else Halves(1.0)
    ensures Abs(Money(e.items[i].exitFee) - e.items[i].exitFee) <= if FeesOnGrid(e) then 0.0 else Halves(1.0)
  {
    MoneyError(e.items[i].entryFee);
    MoneyError(e.items[i].exitFee);
    if FeesOnGrid(e) {
      MoneyFixed(e.items[i].entryFee);
      MoneyFixed(e.items[i].exitFee);
    }
  }

  function FeeBudgets(e: Book, t: int): int -> real {
    i => if FeesOnGrid(e) then 0.0 else Halves(if 0 < t == e.Last() then 2.0 else 1.0)
  }

  lemma FeeBudgetSum(e: Book, t: int)
    ensures SumTo(|e.items|, FeeBudgets(e, t)) == Halves(RoundedFees(e, t) as real)
  {
    var n, f := |e.items|, FeeBudgets(e, t);
    if FeesOnGrid(e) {
      SumConstant(n, 0.0, f);
    } else if 0 < t == e.Last() {
      SumConstant(n, 0.000_000_000_000_000_001, f);
    } else {
      SumConstant(n, 0.000_000_000_000_000_000_5, f);
    }
  }

  lemma FeesDrift(e: Book, t: nat)
    ensures Abs(SumTo(|e.items|, Written(e).Fees(t)) - SumTo(|e.items|, e.Fees(t))) <= Halves(RoundedFees(e, t) as real)
  {
    var n, f, g, budgets := |e.items|, Written(e).Fees(t), e.Fees(t), FeeBudgets(e, t);
    forall i | 0 <= i < n ensures Abs(f(i) - g(i)) <= budgets(i) {
      FeeRounding(e, i);
    }
    SumBudget(n, f, g, budgets);
    FeeBudgetSum(e, t);
  }

  lemma SameHoldings(e: Book, i: nat, t: int)
    requires i < |e.items|
    ensures Written(e).Close(i, t) == e.Close(i, t) && Written(e).Shares(i) == e.Shares(i)
    ensures Written(e).MarketValue(i, t) == e.MarketValue(i, t) && Written(e).PriceMove(i, t) == e.PriceMove(i, t)
    ensures Written(e).Order(i, t) == e.Order(i, t) && Written(e).Position(i, t) == e.Position(i, t)
  {
    assert Written(e).Priced(i, t) == e.Priced(i, t);
    assert Written(e).Priced(i, t - 1) == e.Priced(i, t - 1);
  }

  lemma NameCashDrift(e: Book, i: nat, t: int)
    requires i < |e.items|
    ensures Written(e).NameCash(i, t) - e.NameCash(i, t) == e.FeesTo(i, t) - Written(e).FeesTo(i, t)
  {
    SameHoldings(e, i, t);
    SameHoldings(e, i, 0);
  }

  /** Cash differs by the fees' drift and by nothing else. */
  lemma CashDriftIsFees(e: Book, t: nat)
    ensures Written(e).Cash(t) - e.Cash(t) == SumTo(|e.items|, e.Fees(t)) - SumTo(|e.items|, Written(e).Fees(t))
  {
    var n, f, g := |e.items|, Written(e).Cashes(t), e.Cashes(t);
    var x, y := e.Fees(t), Written(e).Fees(t);
    var gap := (i: int) => x(i) - y(i);
    forall i | 0 <= i < n ensures gap(i) == f(i) - g(i) {
      NameCashDrift(e, i, t);
    }
    SumOfDifferences(n, f, g, gap);
    SumOfDifferences(n, x, y, gap);
  }

  lemma SameMarket(e: Book, t: nat)
    ensures Written(e).Market(t) == e.Market(t)
  {
    var f, g := Written(e).Markets(t), e.Markets(t);
    forall i | 0 <= i < |e.items| ensures f(i) == g(i) {
      SameHoldings(e, i, t);
    }
    SumCongruent(|e.items|, f, g);
  }

  /** Divergence bound: after session t, with f serialized fees (none counted when they are on the grid) and a
      serialized accruals, the ledgers differ by at most f/2 quanta in cash and in fees, a/2 in receivable and
      (a+f)/2 in NAV. */
  lemma DivergenceBound(e: Book, t: nat)
    ensures Abs(SumTo(|e.items|, Written(e).Fees(t)) - SumTo(|e.items|, e.Fees(t))) <= Halves(RoundedFees(e, t) as real)
    ensures Abs(Written(e).Cash(t) - e.Cash(t)) <= Halves(RoundedFees(e, t) as real)
    ensures Abs(Written(e).Receivable(0, t) - e.Receivable(0, t)) <= Halves(Accruals(e, t))
    ensures Abs(Written(e).Nav(0, t) - e.Nav(0, t)) <= Halves(RoundedFees(e, t) as real + Accruals(e, t))
  {
    CashDriftIsFees(e, t);
    FeesDrift(e, t);
    ReceivableDrift(e, t);
    SameMarket(e, t);
  }

  function DayBudgets(e: Book, t: int): int -> real { i => Halves(AppliedOn(e, i, t) as real) }

  lemma NetPnlDrift(e: Book, i: nat, t: nat)
    requires i < |e.items|
    ensures Abs(NetPnls(Written(e), 0, t)(i) - NetPnls(e, 0, t)(i)) <= FeeBudgets(e, 0)(i) + DayBudgets(e, t)(i)
  {
    SameHoldings(e, i, t);
    AccruedOnRounding(e, i, t);
    FeeRounding(e, i);
    var p := Written(e);
    assert Abs(p.FeeOn(i, t) - e.FeeOn(i, t)) <= FeeBudgets(e, 0)(i);
    assert Abs(p.AccruedOn(i, t) - e.AccruedOn(i, t)) <= DayBudgets(e, t)(i);
    assert p.PriceMove(i, t) == e.PriceMove(i, t);
  }

  function SessionBudgets(e: Book, t: int): int -> real { i => FeeBudgets(e, 0)(i) + DayBudgets(e, t)(i) }

  lemma SessionBudgetSum(e: Book, t: int)
    ensures SumTo(|e.items|, SessionBudgets(e, t)) == Halves(RoundedFees(e, 0) as real + AccrualsOn(e, t))
  {
    var n, fees, accruals, budgets := |e.items|, FeeBudgets(e, 0), DayBudgets(e, t), SessionBudgets(e, t);
    SumOfSums(n, fees, accruals, budgets);
    FeeBudgetSum(e, 0);
    BudgetSum(n, AppliedCountsOn(e, t), accruals);
  }

  lemma NetPnlSumDrift(e: Book, t: nat)
    ensures Abs(SumTo(|e.items|, NetPnls(Written(e), 0, t)) - SumTo(|e.items|, NetPnls(e, 0, t)))
            <= SumTo(|e.items|, SessionBudgets(e, t))
  {
    var f, g, budgets := NetPnls(Written(e), 0, t), NetPnls(e, 0, t), SessionBudgets(e, t);
    forall i | 0 <= i < |e.items| ensures Abs(f(i) - g(i)) <= budgets(i) {
      NetPnlDrift(e, i, t);
    }
    SumBudget(|e.items|, f, g, budgets);
  }

  /** One session's P&L drifts by at most half a quantum per name's fee and per accrual of that session. */
  lemma DailyDrift(e: Book, t: nat)
    requires t < |e.path| && 1 < |e.path|
    ensures Abs((Written(e).Nav(0, t) - Written(e).Nav(0, t - 1)) - (e.Nav(0, t) - e.Nav(0, t - 1)))
            <= Halves(RoundedFees(e, 0) as real + AccrualsOn(e, t))
  {
    ContributionsAddUp(Written(e), 0, t);
    ContributionsAddUp(e, 0, t);
    NetPnlSumDrift(e, t);
    SessionBudgetSum(e, t);
  }
}
