/** Whole runs of a matching cohort: both daily ledgers accept it and complete, and none of their checks fires. */
module CohortRun {
  import opened Rounding
  import opened Optional
  import opened Sums
  import opened Books
  import opened ExecutionLedger
  import opened CohortLedger
  import opened Divergence
  import opened Closings
  import opened Lockstep
  import ComponentTolerance
  import DailyChecks
  import PrimaryDaily
  import ReferenceDaily

  function BuiltRows(entries: seq<Entry>, k: int): seq<Constituent>
    requires k > 0 && AllModelable(entries)
  {
    Built(PicksOf(entries), k)
  }

  lemma {:induction false} LedgerNear(rows: seq<Constituent>, f: int -> real)
    requires forall i :: 0 <= i < |rows| ==> Abs(rows[i].netPnl - f(i)) <= 0.000_000_000_000_000_000_5
    ensures Abs(Ledger(rows) - SumTo(|rows|, f)) <= Halves(|rows| as real)
  {
    SumWithin(|rows|, RowPnls(rows), f, 0.000_000_000_000_000_000_5);
  }

  lemma {:induction false} LedgerRounding(entries: seq<Entry>, k: int)
    requires k > 0 && AllModelable(entries)
    ensures Abs(Ledger(BuiltRows(entries, k)) - SumTo(|entries|, ExactNets(entries, k))) <= Halves(|entries| as real)
  {
    var rows, f := BuiltRows(entries, k), ExactNets(entries, k);
    forall i | 0 <= i < |rows| ensures Abs(rows[i].netPnl - f(i)) <= 0.000_000_000_000_000_000_5 {
      BuiltNet(entries, k, i);
    }
    LedgerNear(rows, f);
  }

  lemma {:induction false} BuiltNet(entries: seq<Entry>, k: int, i: nat)
    requires k > 0 && AllModelable(entries) && i < |entries|
    ensures BuiltRows(entries, k)[i].netPnl == Money(ExactNets(entries, k)(i))
    ensures Abs(BuiltRows(entries, k)[i].netPnl - ExactNets(entries, k)(i)) <= 0.000_000_000_000_000_000_5
  {
    var pick := PicksOf(entries)[i];
    assert BuiltRows(entries, k)[i] == Build(pick.leg, k, pick.path);
    MoneyError(ExactNets(entries, k)(i));
  }

  lemma {:induction false} LedgerOnGrid(rows: seq<Constituent>)
    requires forall i :: 0 <= i < |rows| ==> OnGrid(rows[i].netPnl)
    ensures OnGrid(Ledger(rows)) && Money(1.0 + Ledger(rows)) == 1.0 + Ledger(rows)
  {
    SumOnGrid(|rows|, RowPnls(rows));
    assert OnGrid(1.0);
    GridSum(1.0, Ledger(rows));
    MoneyFixed(1.0 + Ledger(rows));
  }

  lemma {:induction false} BuiltOnGrid(entries: seq<Entry>, k: int)
    requires k > 0 && AllModelable(entries)
    ensures var ledger := Ledger(BuiltRows(entries, k)); Money(1.0 + ledger) == 1.0 + ledger
  {
    var rows := BuiltRows(entries, k);
    forall i | 0 <= i < |rows| ensures OnGrid(rows[i].netPnl) {
      BuiltNet(entries, k, i);
      MoneyOnGrid(ExactNets(entries, k)(i));
    }
    LedgerOnGrid(rows);
  }

  /** The written replay ends within 3k + a/2 quanta of the written ledger. */
  lemma {:induction false} TerminalBound(entries: seq<Entry>, k: int, days: seq<int>, prices: Prices)
    requires CohortMatches(entries, k, days, prices)
    ensures var e := ExactBook(entries, k, days, prices);
            Abs(Written(e).Nav(0, e.Last()) - Money(1.0 + Ledger(BuiltRows(entries, k))))
            <= Halves(6.0 * k as real + Accruals(e, e.Last()))
  {
    var e := ExactBook(entries, k, days, prices);
    var exact, ledger := SumTo(|entries|, ExactNets(entries, k)), Ledger(BuiltRows(entries, k));
    NavCloses(entries, k, days, prices);
    WrittenNavNear(e, k);
    WrittenLedgerNear(entries, k, days, prices);
    ClosingGap(Written(e).Nav(0, e.Last()), e.Nav(0, e.Last()), exact, ledger, k, Accruals(e, e.Last()));
  }

  lemma {:induction false} WrittenLedgerNear(entries: seq<Entry>, k: int, days: seq<int>, prices: Prices)
    requires CohortMatches(entries, k, days, prices)
    ensures var ledger := Ledger(BuiltRows(entries, k));
            && Abs(ledger - SumTo(|entries|, ExactNets(entries, k))) <= Halves((2 * k) as real)
            && Money(1.0 + ledger) == 1.0 + ledger
  {
    LedgerRounding(entries, k);
    BuiltOnGrid(entries, k);
  }

  lemma {:induction false} WrittenNavNear(e: Book, k: int)
    requires k > 0 && |e.items| == 2 * k && 0 < |e.path|
    ensures Abs(Written(e).Nav(0, e.Last()) - e.Nav(0, e.Last())) <= Halves(4.0 * k as real + Accruals(e, e.Last()))
  {
    DivergenceBound(e, e.Last());
    assert RoundedFees(e, e.Last()) <= 4 * k;
  }

  /** Written replay to exact replay, exact replay to exact ledger, exact ledger to written ledger. */
  lemma ClosingGap(written: real, nav: real, exact: real, ledger: real, k: int, accruals: real)
    requires nav == 1.0 + exact
    requires Abs(written - nav) <= Halves(4.0 * k as real + accruals) && Abs(ledger - exact) <= Halves((2 * k) as real)
    ensures Abs(written - (1.0 + ledger)) <= Halves(6.0 * k as real + accruals)
  {
  }

  lemma {:induction false} MatchedHoldings(entries: seq<Entry>, k: int, days: seq<int>, prices: Prices, i: nat)
    requires CohortMatches(entries, k, days, prices) && i < |entries|
    ensures var item, x := ExactBook(entries, k, days, prices).items[i], entries[i];
            && x.path.entry > 0.0 && item.ticker == x.ticker && item.mTicker == x.mTicker && item.leg == x.leg
            && item.quantity == Shares(x.leg, k, x.path) && item.target == Target(x.leg, k)
            && (if x.leg == Long then item.quantity > 0.0 else item.quantity < 0.0)
            && NothingOn(item.accruals, days[0])
  {
    var item, x := ExactBook(entries, k, days, prices).items[i], entries[i];
    assert PathMatches(x, days, prices);
    ShareSign(x.leg, k, x.path.entry);
    forall a | 0 <= a < |item.accruals| ensures item.accruals[a].date != days[0] {
      assert InInterval(x.path, x.path.distributions[a]);
    }
  }

  lemma ShareSign(leg: Leg, k: int, price: real)
    requires k > 0 && price > 0.0
    ensures if leg == Long then Target(leg, k) / price > 0.0 else Target(leg, k) / price < 0.0
  {
    var unit := 1.0 / k as real;
    assert unit > 0.0;
    assert unit / price > 0.0;
    assert Target(Short, k) / price == -(unit / price);
  }

  /** A matching cohort meets every condition of the lockstep theorem. */
  lemma {:induction false} CohortIsRegular(entries: seq<Entry>, k: int, days: seq<int>, prices: Prices)
    requires CohortMatches(entries, k, days, prices)
    ensures Regular(ExactBook(entries, k, days, prices))
  {
    var e := ExactBook(entries, k, days, prices);
    forall i | 0 <= i < |e.items|
      ensures if e.items[i].leg == Long then e.items[i].quantity > 0.0 else e.items[i].quantity < 0.0
      ensures NothingOn(e.items[i].accruals, e.path[0])
    {
      MatchedHoldings(entries, k, days, prices, i);
    }
    forall i, t | 0 <= i < |e.items| && 0 <= t < |e.path| ensures e.Close(i, t) > 0.0 {
      assert (SelectedOf(entries, k)[i].ticker, days[t]) in prices;
    }
    forall i, j | 0 <= i < j < |e.items| ensures e.items[i].ticker != e.items[j].ticker {
      assert entries[i].ticker != entries[j].ticker;
    }
  }

  /** The sessions in which the cohort's days sit. */
  predicate InSessions(days: seq<int>, sessions: seq<int>, start: nat) {
    Increasing(sessions) && start + |days| <= |sessions| && days == sessions[start..start + |days|]
  }

  lemma SessionIndexOf(sessions: seq<int>, i: nat)
    requires Increasing(sessions) && i < |sessions|
    ensures SessionIndex(sessions, sessions[i]) == Some(i)
  {
    var r := SessionIndex(sessions, sessions[i]);
    assert r.Some? && sessions[r.value] == sessions[i];
  }

  /** The primary loop accepts the ledger's rows and replays exactly the written book. */
  lemma {:induction false} RowsAccepted(entries: seq<Entry>, k: int, days: seq<int>, prices: Prices, sessions: seq<int>,
                                        start: nat, terminal: real)
    requires CohortMatches(entries, k, days, prices) && PositivePrices(prices)
    requires InSessions(days, sessions, start)
    ensures var rows, summary := RowsOf(entries, k, |days| - 1), Some(PrimaryDaily.Summary(k, terminal));
            && PrimaryDaily.CohortAccepted(rows, summary, sessions, prices)
            && PrimaryDaily.BookOf(rows, summary, sessions, prices) == Written(ExactBook(entries, k, days, prices))
  {
    var rows, e := RowsOf(entries, k, |days| - 1), ExactBook(entries, k, days, prices);
    forall i | 0 <= i < |rows| ensures RowMatches(rows, i, k, days, prices, Written(e)) {
      RowAccepted(entries, k, days, prices, i);
    }
    MatchedRowsAccepted(rows, k, days, prices, sessions, start, terminal, Written(e));
  }

  /** The row has the cohort's dates, is accepted, and becomes the item of the book. */
  predicate RowMatches(rows: seq<PrimaryDaily.Row>, i: int, k: int, days: seq<int>, prices: Prices, p: Book)
    requires k > 0 && PositivePrices(prices) && 0 < |days| && |p.items| == |rows|
    requires 0 <= i < |rows|
  {
    && rows[i].entryDate == days[0] && rows[i].exitDate == days[|days| - 1] && rows[i].horizon == |days| - 1
    && PrimaryDaily.RowAccepted(rows[i], k, prices) && PrimaryDaily.ItemOf(rows[i], k, prices) == p.items[i]
  }

  lemma {:induction false} MatchedRowsAccepted(rows: seq<PrimaryDaily.Row>, k: int, days: seq<int>, prices: Prices,
                                               sessions: seq<int>, start: nat, terminal: real, p: Book)
    requires k > 0 && PositivePrices(prices) && 1 < |days| && InSessions(days, sessions, start)
    requires |rows| == |p.items| == 2 * k && p.path == days && p.prices == prices
    requires forall i :: 0 <= i < |rows| ==> RowMatches(rows, i, k, days, prices, p)
    ensures var summary := Some(PrimaryDaily.Summary(k, terminal));
            && PrimaryDaily.CohortAccepted(rows, summary, sessions, prices)
            && PrimaryDaily.BookOf(rows, summary, sessions, prices) == p
  {
    var summary := Some(PrimaryDaily.Summary(k, terminal));
    assert sessions[start] == days[0] && sessions[start + |days| - 1] == days[|days| - 1];
    SessionIndexOf(sessions, start);
    SessionIndexOf(sessions, start + |days| - 1);
    assert RowMatches(rows, 0, k, days, prices, p);
    assert PrimaryDaily.DatesShared(rows) by {
      forall i | 0 <= i < |rows|
        ensures rows[i].entryDate == rows[0].entryDate && rows[i].exitDate == rows[0].exitDate
      {
        assert RowMatches(rows, i, k, days, prices, p);
      }
    }
    forall i | 0 <= i < |rows|
      ensures PrimaryDaily.RowAccepted(rows[i], k, prices) && PrimaryDaily.ItemOf(rows[i], k, prices) == p.items[i]
    {
      assert RowMatches(rows, i, k, days, prices, p);
    }
    assert PrimaryDaily.BookOf(rows, summary, sessions, prices).items == p.items;
  }

  lemma {:induction false} RowAccepted(entries: seq<Entry>, k: int, days: seq<int>, prices: Prices, i: nat)
    requires CohortMatches(entries, k, days, prices) && i < |entries|
    requires PositivePrices(prices)
    ensures var row := RowOf(entries[i], k, |days| - 1);
            && row.entryDate == days[0] && row.exitDate == days[|days| - 1]
            && PrimaryDaily.RowAccepted(row, k, prices)
            && PrimaryDaily.ItemOf(row, k, prices) == Written(ExactBook(entries, k, days, prices)).items[i]
  {
    var x, row := entries[i], RowOf(entries[i], k, |days| - 1);
    assert PathMatches(x, days, prices);
    MatchedHoldings(entries, k, days, prices, i);
    MoneyError(Target(x.leg, k));
    QuantityError(Shares(x.leg, k, x.path));
    var item, written := PrimaryDaily.ItemOf(row, k, prices), Written(ExactBook(entries, k, days, prices)).items[i];
    assert item.quantity == Shares(x.leg, k, x.path);
    SameAccruals(x, k, item.quantity);
    assert item.accruals == written.accruals;
  }

  lemma {:induction false} SameAccruals(x: Entry, k: int, q: real)
    requires k > 0 && x.path.entry > 0.0 && q == Shares(x.leg, k, x.path) && DistributionsAccepted(x.path)
    ensures SignedAccruals(Build(x.leg, k, x.path)) == WrittenAccruals(ReferenceDaily.Scaled(x.path.distributions, q))
    ensures PrimaryDaily.DistinctActions(SignedAccruals(Build(x.leg, k, x.path)))
  {
    var a, b := SignedAccruals(Build(x.leg, k, x.path)),
        WrittenAccruals(ReferenceDaily.Scaled(x.path.distributions, q));
    forall i | 0 <= i < |a| ensures a[i] == b[i] && a[i].key == x.path.distributions[i].key {
      assert Times(q, x.path.distributions[i].amount) == ReferenceDaily.ScaledOne(x.path.distributions[i], q).amount;
    }
  }

  lemma {:induction false} PricedRun(b: Book, t: nat)
    requires b.AllPriced() && t <= |b.path|
    ensures PrimaryDaily.PricedThrough(b, t)
  {
    if t > 0 {
      PricedRun(b, t - 1);
    }
  }

  /** The primary ledger completes on every matching cohort with 3k + a/2 at most a million: no row is refused, no
      close is missing, no daily check fires, and the terminal NAV matches the execution ledger. */
  lemma {:induction false} PrimaryCompletes(entries: seq<Entry>, k: int, days: seq<int>, prices: Prices,
                                            sessions: seq<int>, start: nat)
    requires CohortMatches(entries, k, days, prices) && PositivePrices(prices)
    requires InSessions(days, sessions, start)
    requires var e := ExactBook(entries, k, days, prices); 6.0 * k as real + Accruals(e, e.Last()) <= 2_000_000.0
    ensures var terminal := Money(1.0 + Ledger(BuiltRows(entries, k)));
            var rows, summary := RowsOf(entries, k, |days| - 1), Some(PrimaryDaily.Summary(k, terminal));
            && PrimaryDaily.CohortAccepted(rows, summary, sessions, prices)
            && var b := PrimaryDaily.BookOf(rows, summary, sessions, prices);
            && PrimaryDaily.PricedThrough(b, |b.path|) && PrimaryDaily.IdentitiesThrough(b, |b.path|)
            && PrimaryDaily.TerminalHolds(b, terminal)
  {
    RowsAccepted(entries, k, days, prices, sessions, start, Money(1.0 + Ledger(BuiltRows(entries, k))));
    WrittenPasses(entries, k, days, prices);
  }

  lemma {:induction false} WrittenPasses(entries: seq<Entry>, k: int, days: seq<int>, prices: Prices)
    requires CohortMatches(entries, k, days, prices) && PositivePrices(prices)
    requires var e := ExactBook(entries, k, days, prices); 6.0 * k as real + Accruals(e, e.Last()) <= 2_000_000.0
    ensures var p := Written(ExactBook(entries, k, days, prices));
            && PrimaryDaily.PricedThrough(p, |p.path|) && PrimaryDaily.IdentitiesThrough(p, |p.path|)
            && PrimaryDaily.TerminalHolds(p, Money(1.0 + Ledger(BuiltRows(entries, k))))
  {
    var e := ExactBook(entries, k, days, prices);
    TerminalBound(entries, k, days, prices);
    CohortIsRegular(entries, k, days, prices);
    AllWrittenPriced(entries, k, days, prices);
    WrittenIsPlaced(e);
    ChecksPass(Written(e), k, Accruals(e, e.Last()), Money(1.0 + Ledger(BuiltRows(entries, k))));
  }

  /** A priced regular book this close to its terminal NAV passes every check of the primary loop. */
  lemma ChecksPass(p: Book, k: int, a: real, terminal: real)
    requires Regular(p) && p.AllPriced() && |p.items| == 2 * k
    requires a >= 0.0 && 6.0 * k as real + a <= 2_000_000.0
    requires Abs(p.Nav(0, p.Last()) - terminal) <= Halves(6.0 * k as real + a)
    ensures PrimaryDaily.PricedThrough(p, |p.path|) && PrimaryDaily.IdentitiesThrough(p, |p.path|)
    ensures PrimaryDaily.TerminalHolds(p, terminal)
  {
    IdentitiesPass(p, k);
    PricedRun(p, |p.path|);
  }

  lemma WrittenIsPlaced(e: Book)
    requires Regular(e)
    ensures Regular(Written(e)) && Accruals(e, e.Last()) >= 0.0
  {
    ComponentTolerance.CountsAreNatural(e, e.Last());
    ComponentTolerance.WrittenIsRegular(e);
  }

  lemma IdentitiesPass(b: Book, k: int)
    requires Regular(b) && |b.items| == 2 * k && 6.0 * k as real <= 2_000_000.0
    ensures PrimaryDaily.IdentitiesThrough(b, |b.path|)
  {
    DailyChecks.DistinctTickersPass(b, |b.path|);
  }

  lemma {:induction false} AllWrittenPriced(entries: seq<Entry>, k: int, days: seq<int>, prices: Prices)
    requires CohortMatches(entries, k, days, prices)
    ensures Written(ExactBook(entries, k, days, prices)).AllPriced()
  {
    var p := Written(ExactBook(entries, k, days, prices));
    forall i, t | 0 <= i < |p.items| && 0 <= t < |p.path| ensures p.Priced(i, t) {
      assert (SelectedOf(entries, k)[i].ticker, days[t]) in prices;
    }
  }

  /** The cohort's paths as the frozen selection lists them. */
  function PathsOf(entries: seq<Entry>, k: int, days: seq<int>): seq<ReferenceDaily.SelectedPath>
    requires k > 0 && 1 < |days|
  {
    seq(|entries|, i requires 0 <= i < |entries| =>
      ReferenceDaily.SelectedPath(SelectedOne(entries[i], k), days[0], days[|days| - 1], |days| - 1, k))
  }

  lemma {:induction false} PathsAreSound(entries: seq<Entry>, k: int, days: seq<int>, prices: Prices,
                                         sessions: seq<int>, start: nat)
    requires CohortMatches(entries, k, days, prices) && PositivePrices(prices) && InSessions(days, sessions, start)
    ensures var rows := PathsOf(entries, k, days);
            && ReferenceDaily.CohortSound(rows, sessions, prices)
            && ReferenceDaily.NamesOf(rows) == SelectedOf(entries, k)
            && ReferenceDaily.CohortBook(rows, sessions, prices) == ExactBook(entries, k, days, prices)
  {
    var rows := PathsOf(entries, k, days);
    SessionIndexOf(sessions, start);
    SessionIndexOf(sessions, start + |days| - 1);
    assert sessions[start] == days[0] && sessions[start + |days| - 1] == days[|days| - 1];
    forall i | 0 <= i < |rows|
      ensures ReferenceDaily.PathSound(rows[i], sessions, prices)
          && ReferenceDaily.PathOf(rows[i], sessions, prices) == days
    {
      PathIsSound(entries, k, days, prices, sessions, start, i);
    }
    assert ReferenceDaily.NamesOf(rows) == SelectedOf(entries, k);
  }

  lemma {:induction false} PathIsSound(entries: seq<Entry>, k: int, days: seq<int>, prices: Prices,
                                       sessions: seq<int>, start: nat, i: nat)
    requires CohortMatches(entries, k, days, prices) && PositivePrices(prices) && InSessions(days, sessions, start)
    requires i < |entries|
    ensures var row := PathsOf(entries, k, days)[i];
            ReferenceDaily.PathSound(row, sessions, prices) && ReferenceDaily.PathOf(row, sessions, prices) == days
  {
    var name := PathsOf(entries, k, days)[i].name;
    SessionIndexOf(sessions, start);
    SessionIndexOf(sessions, start + |days| - 1);
    assert sessions[start] == days[0] && sessions[start + |days| - 1] == days[|days| - 1];
    assert name == SelectedOf(entries, k)[i];
    forall t | start <= t < start + |days| ensures (name.ticker, sessions[t]) in prices {
      assert sessions[t] == days[t - start];
    }
  }

  /** The event ledger completes too: its paths are sound, every source check holds, and its P&L is the
      constituents' economics. */
  lemma {:induction false} ReferenceCompletes(entries: seq<Entry>, k: int, days: seq<int>, prices: Prices,
                                              sessions: seq<int>, start: nat)
    requires CohortMatches(entries, k, days, prices) && PositivePrices(prices) && InSessions(days, sessions, start)
    ensures var rows, e := PathsOf(entries, k, days), ExactBook(entries, k, days, prices);
            && ReferenceDaily.CohortSound(rows, sessions, prices)
            && ReferenceDaily.CohortBook(rows, sessions, prices) == e
            && var names := ReferenceDaily.NamesOf(rows);
            && ReferenceDaily.EntriesSourced(names, days, prices) && ReferenceDaily.ExitsSourced(names, days, prices)
            && ReferenceDaily.TerminalHolds(names, e)
  {
    PathsAreSound(entries, k, days, prices, sessions, start);
    EconomicsMatch(entries, k, days, prices);
  }

  lemma {:induction false} EconomicsMatch(entries: seq<Entry>, k: int, days: seq<int>, prices: Prices)
    requires CohortMatches(entries, k, days, prices)
    ensures var names := SelectedOf(entries, k);
            && ReferenceDaily.EntriesSourced(names, days, prices) && ReferenceDaily.ExitsSourced(names, days, prices)
            && ReferenceDaily.TerminalHolds(names, ExactBook(entries, k, days, prices))
  {
    var names, e := SelectedOf(entries, k), ExactBook(entries, k, days, prices);
    forall i | 0 <= i < |names|
      ensures ReferenceDaily.EntrySourced(names[i], days, prices) && ReferenceDaily.ExitSourced(names[i], days, prices)
      ensures ReferenceDaily.Expected(names, e)(i) == ExactNets(entries, k)(i)
    {
      EntryCompletes(entries, k, days, prices, i);
    }
    SumCongruent(|names|, ReferenceDaily.Expected(names, e), ExactNets(entries, k));
    NavCloses(entries, k, days, prices);
    CohortIsRegular(entries, k, days, prices);
    SameNav(e, e.Last());
    MoneyError(e.Nav(1, e.Last()) - 1.0);
  }

  lemma {:induction false} EntryCompletes(entries: seq<Entry>, k: int, days: seq<int>, prices: Prices, i: nat)
    requires CohortMatches(entries, k, days, prices) && i < |entries|
    ensures var names, e := SelectedOf(entries, k), ExactBook(entries, k, days, prices);
            && ReferenceDaily.EntrySourced(names[i], days, prices) && ReferenceDaily.ExitSourced(names[i], days, prices)
            && ReferenceDaily.Expected(names, e)(i) == ExactNets(entries, k)(i)
  {
    var x, e := entries[i], ExactBook(entries, k, days, prices);
    assert PathMatches(x, days, prices);
    MatchedHoldings(entries, k, days, prices, i);
    ShareSign(x.leg, k, 1.0);
    assert e.Priced(i, 0) && e.Priced(i, e.Last());
    assert e.Close(i, 0) == x.path.entry && e.Close(i, e.Last()) == x.path.exitPrice;
    var q := e.items[i].quantity;
    assert q * (x.path.exitPrice - x.path.entry + x.path.cashTotal)
        == Times(q, x.path.exitPrice - x.path.entry) + Times(q, x.path.cashTotal);
    assert e.items[i].entryFee == Fee(k);
  }
}
