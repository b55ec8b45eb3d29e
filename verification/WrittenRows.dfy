/** What a written row says, number by number: each field stands on its grid, at most half a unit away from the amount
    it reports. */
module WrittenRows {
  import opened Rounding
  import opened Optional
  import opened Sums
  import opened Books

  /** Money as written: a whole number of quanta, half a quantum from x at most. */
  predicate Reports(written: real, x: real) {
    && (written * 1_000_000_000_000_000_000.0).Floor as real == written * 1_000_000_000_000_000_000.0
    && x - 0.000_000_000_000_000_000_5 <= written <= x + 0.000_000_000_000_000_000_5
  }

  /** Shares as written: a whole number of units of 1e-24, half a unit from x at most. */
  predicate ReportsShares(written: real, x: real) {
    && (written * 1_000_000_000_000_000_000_000_000.0).Floor as real
       == written * 1_000_000_000_000_000_000_000_000.0
    && x - 0.000_000_000_000_000_000_000_000_5 <= written <= x + 0.000_000_000_000_000_000_000_000_5
  }

  lemma MoneyReports(x: real)
    ensures Reports(Money(x), x)
  {
    MoneyError(x);
    MoneyOnGrid(x);
  }

  lemma QuantityReports(x: real)
    ensures ReportsShares(Quantity(x), x)
  {
    QuantityError(x);
  }

  // ----- distributions -----

  /** The distributions of one day, as summands. */
  function AmountsOn(accruals: seq<Accrual>, day: int): int -> real {
    a => if 0 <= a < |accruals| && accruals[a].date == day then accruals[a].amount else 0.0
  }

  lemma {:induction false} DatedIsSum(accruals: seq<Accrual>, day: int)
    ensures DatedTotal(accruals, day) == SumTo(|accruals|, AmountsOn(accruals, day))
  {
    if accruals != [] {
      var front := accruals[..|accruals| - 1];
      DatedIsSum(front, day);
      SumCongruent(|front|, AmountsOn(front, day), AmountsOn(accruals, day));
    }
  }

  predicate KeyOn(accruals: seq<Accrual>, day: int, key: string) {
    exists a | 0 <= a < |accruals| :: accruals[a].date == day && accruals[a].key == key
  }

  lemma {:induction false} DatedKeysAreKeys(accruals: seq<Accrual>, day: int, key: string)
    ensures key in DatedKeys(accruals, day) <==> KeyOn(accruals, day, key)
  {
    if accruals != [] {
      var front, last := accruals[..|accruals| - 1], accruals[|accruals| - 1];
      DatedKeysAreKeys(front, day, key);
      if KeyOn(front, day, key) {
        var a :| 0 <= a < |front| && front[a].date == day && front[a].key == key;
        assert accruals[a] == front[a];
      }
    }
  }

  // ----- a name's row -----

  function PaidOn(b: Book, i: nat, t: nat, from: nat): real
    requires i < |b.items| && t < |b.path|
  {
    if t < from then 0.0 else SumTo(|b.items[i].accruals|, AmountsOn(b.items[i].accruals, b.path[t]))
  }

  /** What the row of name i reports on session t; `from` is the first session whose distributions are taken, `moved`
      the price P&L. */
  ghost predicate NameReported(b: Book, i: nat, t: nat, from: nat, moved: real, s: NameState)
    requires i < |b.items| && t < |b.path|
  {
    && s.mTicker == b.items[i].mTicker && Reports(s.close, b.Close(i, t))
    && Reports(s.target, if t == |b.path| - 1 then 0.0 else b.items[i].target)
    && ReportsShares(s.order, b.Order(i, t)) && ReportsShares(s.position, b.Position(i, t))
    && Reports(s.cashFlow, -(b.Order(i, t) * b.Close(i, t)))
    && Reports(s.marketValue, b.Position(i, t) * b.Close(i, t))
    && Reports(s.accrual, PaidOn(b, i, t, from)) && Reports(s.receivable, b.Accrued(i, from, t))
    && Reports(s.fee, b.FeeOn(i, t)) && Reports(s.pricePnl, moved)
    && Reports(s.netPnl, moved + PaidOn(b, i, t, from) - b.FeeOn(i, t))
    && forall key :: key in s.applied <==> t >= from && KeyOn(b.items[i].accruals, b.path[t], key)
  }

  /** Every number of a row is written as itself. */
  predicate WrittenName(s: NameState, w: NameState) {
    && w.mTicker == s.mTicker && w.applied == s.applied
    && Reports(w.close, s.close) && Reports(w.target, s.target) && Reports(w.cashFlow, s.cashFlow)
    && Reports(w.accrual, s.accrual) && Reports(w.receivable, s.receivable) && Reports(w.marketValue, s.marketValue)
    && Reports(w.pricePnl, s.pricePnl) && Reports(w.fee, s.fee) && Reports(w.netPnl, s.netPnl)
    && ReportsShares(w.order, s.order) && ReportsShares(w.position, s.position)
  }

  lemma NameIsWritten(s: NameState)
    ensures WrittenName(s, FixName(s))
  {
    MoneyReports(s.close);
    MoneyReports(s.target);
    MoneyReports(s.cashFlow);
    MoneyReports(s.accrual);
    MoneyReports(s.receivable);
    MoneyReports(s.marketValue);
    MoneyReports(s.pricePnl);
    MoneyReports(s.fee);
    MoneyReports(s.netPnl);
    QuantityReports(s.order);
    QuantityReports(s.position);
  }

  lemma {:induction false} NameIsReported(b: Book, i: nat, t: nat, from: nat, moved: real)
    requires i < |b.items| && t < |b.path|
    ensures NameReported(b, i, t, from, moved, FixName(b.NameAt(i, t, from, moved)))
  {
    var s := b.NameAt(i, t, from, moved);
    NameFieldsAre(b, i, t, from, moved);
    NameIsWritten(s);
    WrittenIsReported(b, i, t, from, moved, s, FixName(s));
  }

  /** The numbers of a name's row before it is written. */
  ghost predicate NameFields(b: Book, i: nat, t: nat, from: nat, moved: real, s: NameState)
    requires i < |b.items| && t < |b.path|
  {
    && s.mTicker == b.items[i].mTicker && s.close == b.Close(i, t)
    && s.target == (if t == |b.path| - 1 then 0.0 else b.items[i].target)
    && s.order == b.Order(i, t) && s.position == b.Position(i, t)
    && s.cashFlow == -(b.Order(i, t) * b.Close(i, t)) && s.marketValue == b.Position(i, t) * b.Close(i, t)
    && s.accrual == PaidOn(b, i, t, from) && s.receivable == b.Accrued(i, from, t)
    && s.fee == b.FeeOn(i, t) && s.pricePnl == moved && s.netPnl == moved + PaidOn(b, i, t, from) - b.FeeOn(i, t)
    && forall key :: key in s.applied <==> t >= from && KeyOn(b.items[i].accruals, b.path[t], key)
  }

  lemma {:induction false} NameFieldsAre(b: Book, i: nat, t: nat, from: nat, moved: real)
    requires i < |b.items| && t < |b.path|
    ensures NameFields(b, i, t, from, moved, b.NameAt(i, t, from, moved))
  {
    var s := b.NameAt(i, t, from, moved);
    DatedIsSum(b.items[i].accruals, b.path[t]);
    forall key ensures key in s.applied <==> t >= from && KeyOn(b.items[i].accruals, b.path[t], key) {
      DatedKeysAreKeys(b.items[i].accruals, b.path[t], key);
    }
  }

  lemma WrittenIsReported(b: Book, i: nat, t: nat, from: nat, moved: real, s: NameState, w: NameState)
    requires i < |b.items| && t < |b.path| && NameFields(b, i, t, from, moved, s) && WrittenName(s, w)
    ensures NameReported(b, i, t, from, moved, w)
  {
  }

  // ----- the cohort's row -----

  /** What is held long and what is held short, by the sign of its worth. */
  function Longs(b: Book, t: int): int -> real { i => if b.MarketValue(i, t) > 0.0 then b.MarketValue(i, t) else 0.0 }

  function Shorts(b: Book, t: int): int -> real { i => if b.MarketValue(i, t) < 0.0 then -b.MarketValue(i, t) else 0.0 }

  lemma GrossBySign(b: Book, t: int)
    ensures SumTo(|b.items|, b.LongBySign(t)) == SumTo(|b.items|, Longs(b, t))
    ensures SumTo(|b.items|, b.ShortBySign(t)) == SumTo(|b.items|, Shorts(b, t))
  {
    SumCongruent(|b.items|, b.LongBySign(t), Longs(b, t));
    SumCongruent(|b.items|, b.ShortBySign(t), Shorts(b, t));
  }

  /** The row of the cohort on session t, given its two gross exposures and how the fees of the session are shown. */
  predicate CohortReported(b: Book, t: nat, from: nat, long: real, short: real, c: CohortState) {
    var cash, receivable, market := b.Cash(t), b.Receivable(from, t), b.Market(t);
    && Reports(c.cash, cash) && Reports(c.receivable, receivable) && Reports(c.marketValue, market)
    && Reports(c.grossLong, long) && Reports(c.grossShort, short)
    && Reports(c.nav, cash + receivable + market) && Reports(c.cumulativePnl, cash + receivable + market - 1.0)
    && Reports(c.cumulativeFees, SumTo(|b.items|, b.Fees(t)))
    && Reports(c.dailyPnl, cash + receivable + market
                           - if t == 0 then 1.0 else b.Cash(t - 1) + b.Receivable(from, t - 1) + b.Market(t - 1))
  }

  lemma CohortIsReported(b: Book, t: nat, from: nat, long: real, short: real, fees: Option<real>, open: int)
    ensures CohortReported(b, t, from, long, short, FixCohort(b.CohortAt(t, from, long, short, fees, open)))
  {
    var c := b.CohortAt(t, from, long, short, fees, open);
    MoneyReports(c.cash);
    MoneyReports(c.receivable);
    MoneyReports(c.marketValue);
    MoneyReports(long);
    MoneyReports(short);
    MoneyReports(c.nav);
    MoneyReports(c.cumulativeFees);
    MoneyReports(c.dailyPnl);
    MoneyReports(c.cumulativePnl);
  }
}
