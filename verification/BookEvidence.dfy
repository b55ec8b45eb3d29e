/** The books the two daily ledgers keep, told in the rows they are read from, and which rows make a book. */
module BookEvidence {
  import opened Rounding
  import opened Optional
  import opened Sums
  import opened Books
  import PrimaryDaily
  import ReferenceDaily

  function SideOf(leg: Leg): real { match leg case Long => 1.0 case Short => -1.0 }

  predicate Near(x: real, y: real) { -0.000_000_000_001 <= x - y <= 0.000_000_000_001 }

  /** So many shares at a price come to an amount. */
  predicate Costs(shares: real, price: real, amount: real) { shares * price == amount }

  /** The last of the sessions on a day. */
  predicate LastOn(sessions: seq<int>, day: int, i: int) {
    0 <= i < |sessions| && sessions[i] == day && forall j | i < j < |sessions| :: sessions[j] != day
  }

  /** The sessions from the last on one day through the last on another, so many later. */
  predicate Spans(sessions: seq<int>, entry: int, exit: int, horizon: int, path: seq<int>) {
    exists i | 0 <= i < |sessions| :: SpansFrom(sessions, entry, exit, horizon, path, i)
  }

  predicate SpansFrom(sessions: seq<int>, entry: int, exit: int, horizon: int, path: seq<int>, i: int) {
    && horizon >= 0 && LastOn(sessions, entry, i) && LastOn(sessions, exit, i + horizon)
    && |path| == horizon + 1 && path == sessions[i..i + horizon + 1]
  }

  predicate CanSpan(sessions: seq<int>, entry: int, exit: int, horizon: int) {
    horizon >= 0 && exists i | 0 <= i < |sessions| :: LastOn(sessions, entry, i) && LastOn(sessions, exit, i + horizon)
  }

  lemma {:induction false} IndexTells(sessions: seq<int>, day: int, i: int)
    ensures LastOn(sessions, day, i) <==> SessionIndex(sessions, day) == Some(i)
    ensures SessionIndex(sessions, day).None? <==> forall j :: !LastOn(sessions, day, j)
  {
    if sessions != [] {
      var front, last := sessions[..|sessions| - 1], |sessions| - 1;
      if sessions[last] == day {
        assert LastOn(sessions, day, last);
      } else {
        IndexTells(front, day, i);
        forall j ensures LastOn(sessions, day, j) <==> LastOn(front, day, j) {
          if LastOn(front, day, j) { assert forall l | j < l < last :: front[l] == sessions[l]; }
          if LastOn(sessions, day, j) { assert j != last && forall l | j < l < last :: front[l] == sessions[l]; }
        }
      }
    }
  }

  lemma {:induction false} SpanTells(sessions: seq<int>, entry: int, exit: int, horizon: int)
    ensures var start, end := SessionIndex(sessions, entry), SessionIndex(sessions, exit);
      && (start.Some? && end.Some? && end.value - start.value == horizon >= 0
          <==> CanSpan(sessions, entry, exit, horizon))
      && (CanSpan(sessions, entry, exit, horizon) ==>
            Spans(sessions, entry, exit, horizon, sessions[start.value..start.value + horizon + 1]))
  {
    var start, end := SessionIndex(sessions, entry), SessionIndex(sessions, exit);
    forall i ensures LastOn(sessions, entry, i) <==> start == Some(i) { IndexTells(sessions, entry, i); }
    forall i ensures LastOn(sessions, exit, i) <==> end == Some(i) { IndexTells(sessions, exit, i); }
    if start.Some? && end.Some? && end.value - start.value == horizon && horizon >= 0 {
      assert LastOn(sessions, entry, start.value) && LastOn(sessions, exit, start.value + horizon);
      assert SpansFrom(sessions, entry, exit, horizon, sessions[start.value..start.value + horizon + 1], start.value);
    }
  }

  // ----- the primary ledger -----

  /** The item is the row's: who, which side, the shares a k-th of the capital buys at the entry close, the fees and the
      distributions as the row has them. */
  predicate ItemRead(row: PrimaryDaily.Row, k: int, prices: Prices, x: Item)
    requires k > 0
  {
    && x.ticker == row.ticker && x.mTicker == row.mTicker && x.leg == row.leg
    && x.target == SideOf(row.leg) / k as real
    && (row.ticker, row.entryDate) in prices && Costs(x.quantity, prices[(row.ticker, row.entryDate)], x.target)
    && x.entryFee == row.entryFee && x.exitFee == row.exitFee && x.accruals == row.accruals
  }

  /** The book holds the rows in their order, over the sessions from their entry to their exit. */
  predicate BookRead(rows: seq<PrimaryDaily.Row>, k: int, sessions: seq<int>, prices: Prices, b: Book)
    requires k > 0 && rows != []
  {
    && b.prices == prices && |b.items| == |rows|
    && Spans(sessions, rows[0].entryDate, rows[0].exitDate, rows[0].horizon, b.path)
    && forall i | 0 <= i < |rows| :: ItemRead(rows[i], k, prices, b.items[i])
  }

  /** The row's own basis is that of the entry close, to the twelfth place, and no distribution repeats. */
  predicate BasisNear(row: PrimaryDaily.Row, k: int, prices: Prices)
    requires k > 0 && PositivePrices(prices)
  {
    && (row.ticker, row.entryDate) in prices && Near(row.target, SideOf(row.leg) / k as real)
    && Near(row.quantity, SideOf(row.leg) / k as real / prices[(row.ticker, row.entryDate)])
    && forall i, j | 0 <= i < j < |row.accruals| :: row.accruals[i].key != row.accruals[j].key
  }

  /** Two full legs over one span of sessions, each row with a sound basis. */
  predicate TwoLegs(rows: seq<PrimaryDaily.Row>, summary: Option<PrimaryDaily.Summary>, sessions: seq<int>,
                    prices: Prices)
    requires PositivePrices(prices)
  {
    && summary.Some? && summary.value.namesPerLeg > 0 && |rows| == 2 * summary.value.namesPerLeg
    && (forall i, j | 0 <= i < |rows| && 0 <= j < |rows| ::
          rows[i].entryDate == rows[j].entryDate && rows[i].exitDate == rows[j].exitDate)
    && CanSpan(sessions, rows[0].entryDate, rows[0].exitDate, rows[0].horizon)
    && forall i | 0 <= i < |rows| :: BasisNear(rows[i], summary.value.namesPerLeg, prices)
  }

  lemma {:induction false} BasisTells(row: PrimaryDaily.Row, k: int, prices: Prices)
    requires k > 0 && PositivePrices(prices)
    ensures PrimaryDaily.RowAccepted(row, k, prices) <==> BasisNear(row, k, prices)
  {
    assert Sign(row.leg) / k as real == SideOf(row.leg) / k as real;
  }

  lemma {:induction false} DatesTell(rows: seq<PrimaryDaily.Row>)
    ensures PrimaryDaily.DatesShared(rows) <==> forall i, j | 0 <= i < |rows| && 0 <= j < |rows| ::
        rows[i].entryDate == rows[j].entryDate && rows[i].exitDate == rows[j].exitDate
  {
  }

  /** The primary ledger accepts exactly such rows. */
  lemma {:induction false} AcceptedTells(rows: seq<PrimaryDaily.Row>, summary: Option<PrimaryDaily.Summary>,
                                         sessions: seq<int>, prices: Prices)
    requires PositivePrices(prices)
    ensures PrimaryDaily.CohortAccepted(rows, summary, sessions, prices) <==> TwoLegs(rows, summary, sessions, prices)
  {
    if summary.Some? && summary.value.namesPerLeg > 0 && |rows| == 2 * summary.value.namesPerLeg {
      DatesTell(rows);
      SpanTells(sessions, rows[0].entryDate, rows[0].exitDate, rows[0].horizon);
      var k := summary.value.namesPerLeg;
      forall i | 0 <= i < |rows|
        ensures PrimaryDaily.RowAccepted(rows[i], k, prices) <==> BasisNear(rows[i], k, prices)
      {
        BasisTells(rows[i], k, prices);
      }
    }
  }

  lemma {:induction false} ItemTells(row: PrimaryDaily.Row, k: int, prices: Prices)
    requires k > 0 && (row.ticker, row.entryDate) in prices && PositivePrices(prices)
    ensures ItemRead(row, k, prices, PrimaryDaily.ItemOf(row, k, prices))
  {
    assert Sign(row.leg) / k as real == SideOf(row.leg) / k as real;
  }

  /** And reads its book from them. */
  lemma {:induction false} BookTells(rows: seq<PrimaryDaily.Row>, summary: Option<PrimaryDaily.Summary>,
                                     sessions: seq<int>, prices: Prices)
    requires PositivePrices(prices) && PrimaryDaily.CohortAccepted(rows, summary, sessions, prices)
    ensures BookRead(rows, summary.value.namesPerLeg, sessions, prices,
                     PrimaryDaily.BookOf(rows, summary, sessions, prices))
  {
    var k := summary.value.namesPerLeg;
    SpanTells(sessions, rows[0].entryDate, rows[0].exitDate, rows[0].horizon);
    forall i | 0 <= i < |rows| ensures ItemRead(rows[i], k, prices, PrimaryDaily.ItemOf(rows[i], k, prices)) {
      assert PrimaryDaily.RowAccepted(rows[i], k, prices);
      ItemTells(rows[i], k, prices);
    }
  }

  // ----- the event ledger -----

  /** The item is the selected path's: the shares its target buys at the entry close, three tenths of a percent of a
      k-th as either fee, the distributions of those shares. */
  predicate ItemDrawn(s: ReferenceDaily.Selected, k: int, entry: real, x: Item)
    requires k > 0
  {
    && x.ticker == s.ticker && x.mTicker == s.mTicker && x.leg == s.leg && x.target == s.target
    && Costs(x.quantity, entry, s.target) && x.entryFee == 0.003 / k as real && x.exitFee == 0.003 / k as real
    && |x.accruals| == |s.distributions|
    && forall i | 0 <= i < |x.accruals| ::
         && x.accruals[i].date == s.distributions[i].date && x.accruals[i].key == s.distributions[i].key
         && Costs(x.quantity, s.distributions[i].amount, x.accruals[i].amount)
  }

  predicate BookDrawn(rows: seq<ReferenceDaily.SelectedPath>, sessions: seq<int>, prices: Prices, b: Book)
    requires rows != [] && rows[0].perLeg > 0
  {
    && b.prices == prices && |b.items| == |rows|
    && Spans(sessions, rows[0].entryDate, rows[0].exitDate, rows[0].horizon, b.path)
    && forall i | 0 <= i < |rows| ::
         && (rows[i].name.ticker, b.path[0]) in prices
         && ItemDrawn(rows[i].name, rows[0].perLeg, prices[(rows[i].name.ticker, b.path[0])], b.items[i])
  }

  /** A span of sessions, its horizon long, with a bar on each. */
  predicate BarredPath(row: ReferenceDaily.SelectedPath, sessions: seq<int>, prices: Prices, path: seq<int>) {
    && Spans(sessions, row.entryDate, row.exitDate, row.horizon, path)
    && forall t | 0 <= t < |path| :: (row.name.ticker, path[t]) in prices
  }

  /** Two full tails over one such span. */
  ghost predicate TwoTails(rows: seq<ReferenceDaily.SelectedPath>, sessions: seq<int>, prices: Prices) {
    && rows != [] && rows[0].perLeg > 0 && |rows| == 2 * rows[0].perLeg
    && exists path :: OnePath(rows, sessions, prices, path)
  }

  predicate OnePath(rows: seq<ReferenceDaily.SelectedPath>, sessions: seq<int>, prices: Prices, path: seq<int>) {
    forall i | 0 <= i < |rows| :: BarredPath(rows[i], sessions, prices, path)
  }

  lemma {:induction false} OneSpan(sessions: seq<int>, entry: int, exit: int, horizon: int, p: seq<int>, q: seq<int>)
    requires Spans(sessions, entry, exit, horizon, p) && Spans(sessions, entry, exit, horizon, q)
    ensures p == q
  {
    var i :| 0 <= i < |sessions| && SpansFrom(sessions, entry, exit, horizon, p, i);
    var j :| 0 <= j < |sessions| && SpansFrom(sessions, entry, exit, horizon, q, j);
    assert !(i < j) && !(j < i);
  }

  lemma {:induction false} PathTells(row: ReferenceDaily.SelectedPath, sessions: seq<int>, prices: Prices,
                                     path: seq<int>)
    ensures BarredPath(row, sessions, prices, path)
      <==> ReferenceDaily.PathSound(row, sessions, prices) && path == ReferenceDaily.PathOf(row, sessions, prices)
  {
    var entry, exit, h := row.entryDate, row.exitDate, row.horizon;
    SpanTells(sessions, entry, exit, h);
    if Spans(sessions, entry, exit, h, path) {
      var i :| 0 <= i < |sessions| && SpansFrom(sessions, entry, exit, h, path, i);
      assert CanSpan(sessions, entry, exit, h);
      var start := SessionIndex(sessions, entry).value;
      OneSpan(sessions, entry, exit, h, path, sessions[start..start + h + 1]);
      BarsTell(row.name.ticker, sessions, prices, start, path);
    } else if ReferenceDaily.PathSound(row, sessions, prices) {
      assert path != ReferenceDaily.PathOf(row, sessions, prices);
    }
  }

  lemma BarsTell(ticker: string, sessions: seq<int>, prices: Prices, start: nat, path: seq<int>)
    requires start + |path| <= |sessions| && path == sessions[start..start + |path|]
    ensures (forall t | 0 <= t < |path| :: (ticker, path[t]) in prices)
      <==> forall t | start <= t < start + |path| :: (ticker, sessions[t]) in prices
  {
    if forall t | 0 <= t < |path| :: (ticker, path[t]) in prices {
      forall t | start <= t < start + |path| ensures (ticker, sessions[t]) in prices {
        assert sessions[t] == path[t - start];
      }
    }
  }

  /** The event ledger accepts exactly such paths. */
  lemma {:induction false} SoundTells(rows: seq<ReferenceDaily.SelectedPath>, sessions: seq<int>, prices: Prices)
    ensures ReferenceDaily.CohortSound(rows, sessions, prices) <==> TwoTails(rows, sessions, prices)
  {
    if ReferenceDaily.CohortSound(rows, sessions, prices) {
      var path := ReferenceDaily.PathOf(rows[0], sessions, prices);
      forall i | 0 <= i < |rows| ensures BarredPath(rows[i], sessions, prices, path) {
        assert ReferenceDaily.PathSound(rows[i], sessions, prices);
        PathTells(rows[i], sessions, prices, path);
      }
      assert OnePath(rows, sessions, prices, path);
    }
    if TwoTails(rows, sessions, prices) {
      var path :| OnePath(rows, sessions, prices, path);
      forall i | 0 <= i < |rows|
        ensures ReferenceDaily.PathSound(rows[i], sessions, prices)
        ensures path == ReferenceDaily.PathOf(rows[i], sessions, prices)
      {
        PathTells(rows[i], sessions, prices, path);
      }
    }
  }

  lemma {:induction false} ItemIsDrawn(s: ReferenceDaily.Selected, k: int, entry: real)
    requires k > 0 && entry != 0.0
    ensures ItemDrawn(s, k, entry, ReferenceDaily.ExactItem(s, k, entry))
  {
  }

  /** And draws its book from them. */
  lemma {:induction false} CohortBookTells(rows: seq<ReferenceDaily.SelectedPath>, sessions: seq<int>, prices: Prices)
    requires ReferenceDaily.CohortSound(rows, sessions, prices) && PositivePrices(prices)
    ensures BookDrawn(rows, sessions, prices, ReferenceDaily.CohortBook(rows, sessions, prices))
  {
    var b, path := ReferenceDaily.CohortBook(rows, sessions, prices), ReferenceDaily.PathOf(rows[0], sessions, prices);
    ReferenceDaily.SoundIsPriced(rows, sessions, prices);
    assert ReferenceDaily.PathSound(rows[0], sessions, prices);
    PathTells(rows[0], sessions, prices, path);
    var names := ReferenceDaily.NamesOf(rows);
    forall i | 0 <= i < |rows|
      ensures (rows[i].name.ticker, path[0]) in prices
      ensures ItemDrawn(rows[i].name, rows[0].perLeg, prices[(rows[i].name.ticker, path[0])], b.items[i])
    {
      assert names[i] == rows[i].name && (names[i].ticker, path[0]) in prices;
      assert prices[(names[i].ticker, path[0])] > 0.0;
      ItemIsDrawn(rows[i].name, rows[0].perLeg, prices[(rows[i].name.ticker, path[0])]);
    }
  }

  // ----- what the event ledger checks against its sources -----

  /** At this return the entry price becomes the exit price and the cash. */
  predicate Yields(s: ReferenceDaily.Selected, entry: real, exit: real, gross: real) {
    entry * (1.0 + gross) == exit + s.cashTotal
  }

  /** The bars of the ends are the source's prices, the target is there, and the return rebuilt from the bars and the
      cash is the source's, to the twelfth place. */
  ghost predicate Sourced(s: ReferenceDaily.Selected, entry: real, exit: real) {
    && Near(entry, s.entryPrice) && Near(exit, s.exitPrice) && s.target != 0.0
    && exists gross :: Yields(s, entry, exit, gross) && Near(gross, s.candidate)
  }

  lemma {:induction false} ReturnTells(s: ReferenceDaily.Selected, entry: real, exit: real, gross: real)
    requires entry > 0.0
    ensures Yields(s, entry, exit, gross) <==> gross == ReferenceDaily.RebuiltReturn(s, entry, exit)
  {
    var end := exit + s.cashTotal;
    var r := end / entry - 1.0;
    assert entry * (1.0 + r) == end;
    if Yields(s, entry, exit, gross) { assert entry * (gross - r) == 0.0; }
  }

  /** Its two checks of a selected path come to that. */
  lemma {:induction false} SourcedTells(s: ReferenceDaily.Selected, path: seq<int>, prices: Prices)
    requires |path| > 0 && (s.ticker, path[0]) in prices && (s.ticker, path[|path| - 1]) in prices
    requires prices[(s.ticker, path[0])] > 0.0
    ensures ReferenceDaily.EntrySourced(s, path, prices) && ReferenceDaily.ExitSourced(s, path, prices)
      <==> Sourced(s, prices[(s.ticker, path[0])], prices[(s.ticker, path[|path| - 1])])
  {
    var entry, exit := prices[(s.ticker, path[0])], prices[(s.ticker, path[|path| - 1])];
    forall gross ensures Yields(s, entry, exit, gross) <==> gross == ReferenceDaily.RebuiltReturn(s, entry, exit) {
      ReturnTells(s, entry, exit, gross);
    }
    assert Yields(s, entry, exit, ReferenceDaily.RebuiltReturn(s, entry, exit));
  }

  // ----- the closing checks -----

  /** What the first n selected paths have earned: price and cash on their shares, less two fees each. */
  function EarnedUpTo(names: seq<ReferenceDaily.Selected>, b: Book, n: nat): real
    requires n <= |names| && |names| == |b.items| && |b.path| > 0 && b.AllPriced()
  {
    if n == 0 then 0.0
    else
      var x := b.items[n - 1];
      assert b.Priced(n - 1, 0) && b.Priced(n - 1, |b.path| - 1);
      var gain := b.prices[(x.ticker, b.path[|b.path| - 1])] - b.prices[(x.ticker, b.path[0])] + names[n - 1].cashTotal;
      EarnedUpTo(names, b, n - 1) + x.quantity * gain - 2.0 * x.entryFee
  }

  lemma {:induction false} EarnedTells(names: seq<ReferenceDaily.Selected>, b: Book, n: nat)
    requires n <= |names| && |names| == |b.items| && |b.path| > 0 && b.AllPriced()
    ensures SumTo(n, ReferenceDaily.Expected(names, b)) == EarnedUpTo(names, b, n)
  {
    if n > 0 {
      EarnedTells(names, b, n - 1);
      assert b.Priced(n - 1, 0) && b.Priced(n - 1, |b.path| - 1);
    }
  }

  /** The event ledger closes when its written P&L is what the paths have earned, to the twelfth place. */
  lemma {:induction false} ClosingTells(names: seq<ReferenceDaily.Selected>, b: Book)
    requires |names| == |b.items| && |b.path| > 0 && b.AllPriced()
    ensures ReferenceDaily.TerminalHolds(names, b) <==>
      var last := |b.path| - 1;
      Near(Money(b.Cash(last) + b.Receivable(1, last) + b.Market(last) - 1.0), EarnedUpTo(names, b, |names|))
  {
    EarnedTells(names, b, |names|);
  }

  /** The primary ledger closes when its NAV is the summary's, to the twelfth place. */
  lemma PrimaryClosingTells(b: Book, terminalNav: real)
    requires |b.path| > 0
    ensures PrimaryDaily.TerminalHolds(b, terminalNav) <==>
      var last := |b.path| - 1; Near(b.Cash(last) + b.Receivable(0, last) + b.Market(last), terminalNav)
  {
  }
}
