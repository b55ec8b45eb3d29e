/** The three closings of a cohort agree: the one-shot constituent ledger, the primary session loop and the
    reference event loop. Ledger rows built from resolved paths drive both daily ledgers to completion. */
module Closings {
  import opened Sums
  import opened Books
  import opened BookLaws
  import opened ExecutionLedger
  import opened CohortLedger
  import LedgerValidity
  import PrimaryDaily
  import ReferenceDaily

  /** A selected name with its resolved path. */
  datatype Entry = Entry(ticker: string, mTicker: string, leg: Leg, path: Resolution)

  predicate Increasing(days: seq<int>) {
    forall s, t :: 0 <= s < t < |days| ==> days[s] < days[t]
  }

  /** The path's dates and prices are those of the daily inputs, and its cash is the sum of its distributions,
      each of them on a session after entry. */
  predicate PathMatches(x: Entry, days: seq<int>, prices: Prices)
    requires 1 < |days|
  {
    && x.path.entry > 0.0 && PathAccepted(x.path)
    && x.path.entryDate == days[0] && x.path.exitDate == days[|days| - 1]
    && (x.ticker, days[0]) in prices && prices[(x.ticker, days[0])] == x.path.entry
    && (x.ticker, days[|days| - 1]) in prices && prices[(x.ticker, days[|days| - 1])] == x.path.exitPrice
    && x.path.cashTotal == LedgerValidity.Total(x.path)
    && (forall i :: 0 <= i < |x.path.distributions| ==> x.path.distributions[i].date in days)
  }

  predicate CohortMatches(entries: seq<Entry>, k: int, days: seq<int>, prices: Prices) {
    && 0 < k && |entries| == 2 * k && 1 < |days| && Increasing(days)
    && (forall i, j :: 0 <= i < j < |entries| ==> entries[i].ticker != entries[j].ticker)
    && (forall i, j :: 0 <= i < j < |entries| ==> entries[i].mTicker != entries[j].mTicker)
    && (forall i :: 0 <= i < |entries| ==> PathMatches(entries[i], days, prices))
    && ReferenceDaily.PathsPriced(SelectedOf(entries, k), days, prices)
  }

  /** The event loop's view of an entry. */
  function SelectedOne(x: Entry, k: int): ReferenceDaily.Selected
    requires k > 0
  {
    ReferenceDaily.Selected(x.ticker, x.mTicker, x.leg, Target(x.leg, k), x.path.distributions,
                            x.path.entryPrice, x.path.exitPrice, x.path.cashTotal, x.path.candidate)
  }

  function SelectedOf(entries: seq<Entry>, k: int): seq<ReferenceDaily.Selected>
    requires k > 0
  {
    seq(|entries|, i requires 0 <= i < |entries| => SelectedOne(entries[i], k))
  }

  function SignedAccruals(row: Constituent): seq<Accrual> {
    seq(|row.accruals|, i requires 0 <= i < |row.accruals| =>
      Accrual(row.accruals[i].date, row.accruals[i].signed, row.accruals[i].key))
  }

  /** The primary loop's view: the row as the execution ledger wrote it. */
  function RowOf(x: Entry, k: int, horizon: int): PrimaryDaily.Row
    requires k > 0 && x.path.entry > 0.0
  {
    var row := Build(x.leg, k, x.path);
    PrimaryDaily.Row(x.ticker, x.mTicker, x.leg, row.entryDate, row.exitDate, horizon, row.target, row.quantity,
                     row.entryFee, row.exitFee, SignedAccruals(row))
  }

  predicate AllModelable(entries: seq<Entry>) {
    forall i :: 0 <= i < |entries| ==> entries[i].path.entry > 0.0
  }

  function RowsOf(entries: seq<Entry>, k: int, horizon: int): seq<PrimaryDaily.Row>
    requires k > 0 && AllModelable(entries)
  {
    seq(|entries|, i requires 0 <= i < |entries| => RowOf(entries[i], k, horizon))
  }

  function PicksOf(entries: seq<Entry>): seq<Pick> {
    seq(|entries|, i requires 0 <= i < |entries| => Pick(entries[i].leg, entries[i].path))
  }

  function ExactBook(entries: seq<Entry>, k: int, days: seq<int>, prices: Prices): Book
    requires CohortMatches(entries, k, days, prices)
  {
    ReferenceDaily.ExactBook(SelectedOf(entries, k), k, days, prices)
  }

  // Every distribution is accrued on exactly one session.

  function RunningTotal(accruals: seq<Accrual>, days: seq<int>, n: nat): real
    requires n <= |days|
  {
    if n == 0 then 0.0 else RunningTotal(accruals, days, n - 1) + DatedTotal(accruals, days[n - 1])
  }

  function AmountsOf(accruals: seq<Accrual>): real {
    if accruals == [] then 0.0 else AmountsOf(accruals[..|accruals| - 1]) + accruals[|accruals| - 1].amount
  }

  lemma {:induction false} RunningStep(accruals: seq<Accrual>, days: seq<int>, n: nat)
    requires n <= |days| && accruals != []
    ensures RunningTotal(accruals, days, n) ==
            RunningTotal(accruals[..|accruals| - 1], days, n)
            + (if accruals[|accruals| - 1].date in days[..n] then accruals[|accruals| - 1].amount else 0.0)
    requires Increasing(days)
  {
    if n > 0 {
      RunningStep(accruals, days, n - 1);
      assert days[..n] == days[..n - 1] + [days[n - 1]];
      assert days[n - 1] !in days[..n - 1];
    }
  }

  lemma {:induction false} RunningIsAll(accruals: seq<Accrual>, days: seq<int>)
    requires Increasing(days) && forall i :: 0 <= i < |accruals| ==> accruals[i].date in days
    ensures RunningTotal(accruals, days, |days|) == AmountsOf(accruals)
  {
    if accruals == [] {
      NothingRunning(days, |days|);
    } else {
      RunningStep(accruals, days, |days|);
      RunningIsAll(accruals[..|accruals| - 1], days);
      assert days[..|days|] == days;
    }
  }

  lemma {:induction false} NothingRunning(days: seq<int>, n: nat)
    requires n <= |days|
    ensures RunningTotal([], days, n) == 0.0
  {
    if n > 0 {
      NothingRunning(days, n - 1);
    }
  }

  lemma {:induction false} AccruedIsRunning(b: Book, i: nat, t: int)
    requires i < |b.items| && -1 <= t < |b.path|
    ensures b.Accrued(i, 0, t) == RunningTotal(b.items[i].accruals, b.path, t + 1)
  {
    if t >= 0 {
      AccruedIsRunning(b, i, t - 1);
    }
  }

  lemma {:induction false} ScaledAmountsOf(distributions: seq<Accrual>, q: real)
    ensures AmountsOf(ReferenceDaily.Scaled(distributions, q))
        == Times(q, SumTo(|distributions|, Amounts(distributions)))
  {
    var n := |distributions|;
    if n > 0 {
      var front := distributions[..n - 1];
      ScaledAmountsOf(front, q);
      assert ReferenceDaily.Scaled(distributions, q)[..n - 1] == ReferenceDaily.Scaled(front, q);
      SumCongruent(n - 1, Amounts(front), Amounts(distributions));
      var a, x := SumTo(n - 1, Amounts(distributions)), distributions[n - 1].amount;
      assert Times(q, a + x) == Times(q, a) + q * x;
    }
  }

  /** By exit a name has accrued its shares times its cash total. */
  lemma {:induction false} AccruedAtExit(entries: seq<Entry>, k: int, days: seq<int>, prices: Prices, i: nat)
    requires CohortMatches(entries, k, days, prices) && i < |entries|
    ensures var e := ExactBook(entries, k, days, prices);
            e.Accrued(i, 0, e.Last()) == Times(Shares(entries[i].leg, k, entries[i].path), entries[i].path.cashTotal)
  {
    var e, x := ExactBook(entries, k, days, prices), entries[i];
    assert PathMatches(x, days, prices);
    var accruals := e.items[i].accruals;
    AccruedIsRunning(e, i, e.Last());
    assert forall a :: 0 <= a < |accruals| ==> accruals[a].date == x.path.distributions[a].date;
    RunningIsAll(accruals, days);
    assert e.items[i].quantity == Shares(x.leg, k, x.path);
    ScaledAmountsOf(x.path.distributions, e.items[i].quantity);
  }

  function ExactNets(entries: seq<Entry>, k: int): int -> real
    requires k > 0 && AllModelable(entries)
  {
    i => if 0 <= i < |entries| then Exact(entries[i].leg, k, entries[i].path).net else 0.0
  }

  /** A name's replayed P&L is the one-shot ledger's. */
  lemma {:induction false} NameCloses(entries: seq<Entry>, k: int, days: seq<int>, prices: Prices, i: nat)
    requires CohortMatches(entries, k, days, prices) && i < |entries|
    ensures var e := ExactBook(entries, k, days, prices);
            PnlsTo(e, 0, e.Last())(i) == ExactNets(entries, k)(i)
  {
    var e, x := ExactBook(entries, k, days, prices), entries[i];
    assert PathMatches(x, days, prices);
    AccruedAtExit(entries, k, days, prices, i);
    assert e.Priced(i, 0) && e.Priced(i, e.Last());
    assert e.Shares(i) == Shares(x.leg, k, x.path);
    assert e.Close(i, 0) == x.path.entry && e.Close(i, e.Last()) == x.path.exitPrice;
    assert e.FeesTo(i, e.Last()) == Fee(k) + Fee(k);
  }

  /** Exact closing: the replayed NAV is one plus the constituent ledger's P&L. */
  lemma {:induction false} NavCloses(entries: seq<Entry>, k: int, days: seq<int>, prices: Prices)
    requires CohortMatches(entries, k, days, prices)
    ensures var e := ExactBook(entries, k, days, prices);
            e.Nav(0, e.Last()) == 1.0 + SumTo(|entries|, ExactNets(entries, k))
  {
    var e := ExactBook(entries, k, days, prices);
    Conservation(e, 0, e.Last());
    var f, g := PnlsTo(e, 0, e.Last()), ExactNets(entries, k);
    forall i | 0 <= i < |entries| ensures f(i) == g(i) {
      NameCloses(entries, k, days, prices, i);
    }
    SumCongruent(|entries|, f, g);
  }

  function ExactReturns(entries: seq<Entry>, leg: Leg): int -> real {
    i => if 0 <= i < |entries| && entries[i].leg == leg && entries[i].path.entry > 0.0
         then Reconstructed(entries[i].path) else 0.0
  }

  /** One plus mean long return minus mean short return minus 1.2%. */
  lemma {:induction false} ClosingIsFactorReturn(entries: seq<Entry>, k: int)
    requires k > 0 && |entries| == 2 * k && AllModelable(entries)
    ensures SumTo(|entries|, ExactNets(entries, k)) ==
            SumTo(|entries|, ExactReturns(entries, Long)) / k as real
                - SumTo(|entries|, ExactReturns(entries, Short)) / k as real - 0.012
  {
    var n, c := |entries|, 1.0 / k as real;
    var f, g := ExactShares(entries), ExactNets(entries, k);
    forall i | 0 <= i < n ensures g(i) == c * f(i) {
      ShareOfNet(entries[i], k);
    }
    SumScaled(n, c, f, g);
    ExactLegSplit(entries, n);
    MeanDifference(SumTo(n, ExactReturns(entries, Long)), SumTo(n, ExactReturns(entries, Short)), k);
  }

  function ExactShares(entries: seq<Entry>): int -> real {
    i => if 0 <= i < |entries| && entries[i].path.entry > 0.0
         then Sign(entries[i].leg) * Reconstructed(entries[i].path) - 0.006 else 0.0
  }

  lemma ShareOfNet(x: Entry, k: int)
    requires k > 0 && x.path.entry > 0.0
    ensures Exact(x.leg, k, x.path).net == (1.0 / k as real) * (Sign(x.leg) * Reconstructed(x.path) - 0.006)
  {
    NetIsReturn(x.leg, k, x.path);
    SplitContribution(x.leg, Reconstructed(x.path), k);
    Divided(Sign(x.leg) * Reconstructed(x.path) - 0.006, k);
  }

  lemma {:induction false} ExactLegSplit(entries: seq<Entry>, n: nat)
    requires n <= |entries| && AllModelable(entries)
    ensures SumTo(n, ExactShares(entries)) ==
            SumTo(n, ExactReturns(entries, Long)) - SumTo(n, ExactReturns(entries, Short)) - n as real * 0.006
  {
    if n > 0 {
      ExactLegSplit(entries, n - 1);
      assert n as real * 0.006 == (n - 1) as real * 0.006 + 0.006;
    }
  }
}
