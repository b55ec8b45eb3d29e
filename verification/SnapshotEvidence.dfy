/** What an accepted snapshot of the daily inputs holds, told in its rows, and what a refusal says. */
module SnapshotEvidence {
  import opened Optional
  import opened Ordering
  import opened TextOrder
  import opened DailyInputs

  // ----- the sessions -----

  predicate Covers(sessions: seq<int>, start: int, end: int) {
    && |sessions| > 0 && sessions[0] == start && sessions[|sessions| - 1] == end
    && forall i, j | 0 <= i < j < |sessions| :: sessions[i] < sessions[j]
  }

  // ----- the coverage -----

  predicate SamePlace(p: SelectedPath, q: SelectedPath) { p.cohort == q.cohort && p.mTicker == q.mTicker }

  /** Path k is the selected path of this cohort and name: of several, the last. */
  predicate Selects(paths: seq<SelectedPath>, q: SelectedPath, k: int) {
    && 0 <= k < |paths| && SamePlace(paths[k], q)
    && forall j | k < j < |paths| :: !SamePlace(paths[j], q)
  }

  /** The dates are those sessions from the entry to the exit. */
  predicate Runs(sessions: seq<int>, q: SelectedPath, dates: seq<int>, i: int) {
    && 0 <= i && |dates| > 0 && i + |dates| <= |sessions| && dates == sessions[i..i + |dates|]
    && dates[0] == q.entry && dates[|dates| - 1] == q.exit
  }

  predicate RunsThrough(sessions: seq<int>, q: SelectedPath, dates: seq<int>) {
    exists i | 0 <= i < |sessions| :: Runs(sessions, q, dates, i)
  }

  /** No run of sessions goes from the entry to the exit. */
  predicate NoRun(sessions: seq<int>, q: SelectedPath) {
    forall i, j | 0 <= i <= j < |sessions| :: sessions[i] != q.entry || sessions[j] != q.exit
  }

  /** The row is that of its selected path, and lists the sessions of it, one more than the horizon. */
  predicate Listed(p: Payload, c: Coverage) {
    && (exists k | 0 <= k < |p.paths| :: Selects(p.paths, c.path, k) && p.paths[k] == c.path)
    && |c.dates| == c.path.horizon + 1 && c.count == c.path.horizon + 1
    && if c.dates == [] then NoRun(p.sessions, c.path) else RunsThrough(p.sessions, c.path, c.dates)
  }

  /** By entry, then horizon, then name. */
  predicate CoverageFirst(a: Coverage, b: Coverage) {
    if a.path.entry != b.path.entry then a.path.entry < b.path.entry
    else if a.path.horizon != b.path.horizon then a.path.horizon < b.path.horizon
    else TextLe(a.path.mTicker, b.path.mTicker)
  }

  predicate HasPlace(rows: seq<Coverage>, q: SelectedPath) { exists i | 0 <= i < |rows| :: SamePlace(rows[i].path, q) }

  predicate AllListed(p: Payload) { forall i | 0 <= i < |p.coverage| :: Listed(p, p.coverage[i]) }

  predicate PlacesDiffer(rows: seq<Coverage>) {
    forall i, j | 0 <= i < j < |rows| :: !SamePlace(rows[i].path, rows[j].path)
  }

  predicate CoverageInOrder(rows: seq<Coverage>) {
    forall i, j | 0 <= i < j < |rows| :: CoverageFirst(rows[i], rows[j])
  }

  predicate EveryPathListed(p: Payload) { forall k | 0 <= k < |p.paths| :: HasPlace(p.coverage, p.paths[k]) }

  /** One row for each selected path, in order. */
  predicate PathsListed(p: Payload) {
    AllListed(p) && PlacesDiffer(p.coverage) && EveryPathListed(p) && CoverageInOrder(p.coverage)
  }

  // ----- the prices -----

  predicate Wanted(p: Payload, r: PriceRow) {
    && (exists k | 0 <= k < |p.paths| :: p.paths[k].ticker == r.ticker)
    && (exists i | 0 <= i < |p.sessions| :: p.sessions[i] == r.day)
  }

  /** By ticker, then day. */
  predicate PriceFirst(a: PriceRow, b: PriceRow) {
    if a.ticker != b.ticker then TextLe(a.ticker, b.ticker) else a.day < b.day
  }

  predicate PricesListed(p: Payload) {
    && (forall i | 0 <= i < |p.prices| ::
          Wanted(p, p.prices[i]) && p.prices[i].close > 0.0 && p.prices[i].adjusted > 0.0)
    && forall i, j | 0 <= i < j < |p.prices| :: PriceFirst(p.prices[i], p.prices[j])
  }

  predicate PricedOnDay(p: Payload, ticker: string, day: int) {
    exists i | 0 <= i < |p.prices| :: p.prices[i].ticker == ticker && p.prices[i].day == day
  }

  predicate EveryDatePriced(p: Payload) {
    forall i, j | 0 <= i < |p.coverage| && 0 <= j < |p.coverage[i].dates| ::
      PricedOnDay(p, p.coverage[i].path.ticker, p.coverage[i].dates[j])
  }

  predicate Holds(p: Payload) {
    p.start <= p.end && Covers(p.sessions, p.start, p.end) && PathsListed(p) && PricesListed(p) && EveryDatePriced(p)
  }

  // ----- the coverage tells -----

  lemma {:induction false} PathTells(paths: seq<SelectedPath>, q: SelectedPath)
    ensures PathOf(paths, KeyOf(q)) == Some(q) <==>
      exists k | 0 <= k < |paths| :: Selects(paths, q, k) && paths[k] == q
  {
    if paths != [] {
      var front, last := paths[..|paths| - 1], |paths| - 1;
      if SamePlace(paths[last], q) {
        assert Selects(paths, q, last);
        forall k | 0 <= k < last ensures !Selects(paths, q, k) {}
      } else {
        PathTells(front, q);
        forall k | 0 <= k < last ensures Selects(paths, q, k) <==> Selects(front, q, k) {
          assert forall j | k < j < last :: paths[j] == front[j];
        }
      }
    }
  }

  lemma {:induction false} OneIndex(sessions: seq<int>, i: int, day: int)
    requires forall a, b | 0 <= a < b < |sessions| :: sessions[a] < sessions[b]
    requires 0 <= i < |sessions| && sessions[i] == day
    ensures IndexOf(sessions, day) == Some(i)
  {
    var at := IndexOf(sessions, day);
    assert day in sessions;
    assert !(at.value < i) && !(i < at.value);
  }

  lemma EndsOfRun(sessions: seq<int>, q: SelectedPath, dates: seq<int>, a: int)
    requires Runs(sessions, q, dates, a)
    ensures !NoRun(sessions, q)
  {
    assert sessions[a] == dates[0] && sessions[a + |dates| - 1] == dates[|dates| - 1];
  }

  lemma {:induction false} SliceTells(sessions: seq<int>, q: SelectedPath, dates: seq<int>)
    requires forall a, b | 0 <= a < b < |sessions| :: sessions[a] < sessions[b]
    ensures dates == DailyInputs.Slice(sessions, q.entry, q.exit)
      <==> if dates == [] then NoRun(sessions, q) else RunsThrough(sessions, q, dates)
  {
    var i, j := IndexOf(sessions, q.entry), IndexOf(sessions, q.exit);
    if i.Some? && j.Some? && i.value <= j.value {
      var run := sessions[i.value..j.value + 1];
      assert run[0] == q.entry && run[|run| - 1] == q.exit && i.value + |run| == j.value + 1;
      assert Runs(sessions, q, run, i.value);
      assert !NoRun(sessions, q);
      forall a | 0 <= a < |sessions| && dates != [] && Runs(sessions, q, dates, a) ensures dates == run {
        assert sessions[a] == dates[0] && sessions[a + |dates| - 1] == dates[|dates| - 1];
        OneIndex(sessions, a, q.entry);
        OneIndex(sessions, a + |dates| - 1, q.exit);
      }
    } else {
      forall a, b | 0 <= a <= b < |sessions| ensures sessions[a] != q.entry || sessions[b] != q.exit {
        if sessions[a] == q.entry && sessions[b] == q.exit {
          OneIndex(sessions, a, q.entry);
          OneIndex(sessions, b, q.exit);
        }
      }
      forall a | 0 <= a < |sessions| ensures !(dates != [] && Runs(sessions, q, dates, a)) {
        if dates != [] && Runs(sessions, q, dates, a) { EndsOfRun(sessions, q, dates, a); }
      }
    }
  }

  lemma {:induction false} ListedTells(p: Payload, c: Coverage)
    requires forall a, b | 0 <= a < b < |p.sessions| :: p.sessions[a] < p.sessions[b]
    ensures CoverageRowHolds(p, c) <==> Listed(p, c)
  {
    PathTells(p.paths, c.path);
    SliceTells(p.sessions, c.path, c.dates);
  }

  lemma {:induction false} SortedTells<T(!new)>(s: seq<T>, le: (T, T) -> bool)
    requires Preorder(le)
    ensures Sort(s, le) == s <==> Ordered(s, le)
  {
    SortSorts(s, le);
    if Ordered(s, le) { SortedStays(s, le); }
  }

  lemma {:induction false} CoverageOrdered(rows: seq<Coverage>)
    ensures Sort(rows, CoverageLe) == rows <==> CoverageInOrder(rows)
  {
    TextLeIsTotalOrder();
    forall a, b ensures CoverageLe(a, b) <==> CoverageFirst(a, b) {}
    SortedTells(rows, CoverageLe);
  }

  lemma {:induction false} CoverageTells(p: Payload)
    requires forall a, b | 0 <= a < b < |p.sessions| :: p.sessions[a] < p.sessions[b]
    ensures CoverageHolds(p) <==> PathsListed(p)
  {
    forall i | 0 <= i < |p.coverage| ensures CoverageRowHolds(p, p.coverage[i]) <==> Listed(p, p.coverage[i]) {
      ListedTells(p, p.coverage[i]);
    }
    CoverageOrdered(p.coverage);
    if AllListed(p) { KeysTell(p); }
  }

  lemma {:induction false} PlaceTells(rows: seq<Coverage>, q: SelectedPath)
    ensures KeyOf(q) in CoverageKeys(rows) <==> HasPlace(rows, q)
  {
    if KeyOf(q) in CoverageKeys(rows) {
      var c :| c in rows && KeyOf(c.path) == KeyOf(q);
      var i :| 0 <= i < |rows| && rows[i] == c;
      assert SamePlace(rows[i].path, q);
    }
    if i :| 0 <= i < |rows| && SamePlace(rows[i].path, q) { assert rows[i] in rows && KeyOf(rows[i].path) == KeyOf(q); }
  }

  lemma {:induction false} ListedHasPath(p: Payload)
    requires AllListed(p)
    ensures CoverageKeys(p.coverage) <= PathKeys(p.paths)
  {
    forall key | key in CoverageKeys(p.coverage) ensures key in PathKeys(p.paths) {
      var c :| c in p.coverage && KeyOf(c.path) == key;
      var i :| 0 <= i < |p.coverage| && p.coverage[i] == c;
      assert Listed(p, p.coverage[i]);
      var k :| 0 <= k < |p.paths| && Selects(p.paths, c.path, k) && p.paths[k] == c.path;
      assert p.paths[k] in p.paths;
    }
  }

  lemma {:induction false} ListedIsKeyed(p: Payload)
    requires EveryPathListed(p)
    ensures PathKeys(p.paths) <= CoverageKeys(p.coverage)
  {
    forall key | key in PathKeys(p.paths) ensures key in CoverageKeys(p.coverage) {
      var q :| q in p.paths && KeyOf(q) == key;
      var k :| 0 <= k < |p.paths| && p.paths[k] == q;
      assert HasPlace(p.coverage, p.paths[k]);
      PlaceTells(p.coverage, q);
    }
  }

  lemma {:induction false} KeyedIsListed(p: Payload)
    requires PathKeys(p.paths) <= CoverageKeys(p.coverage)
    ensures EveryPathListed(p)
  {
    forall k | 0 <= k < |p.paths| ensures HasPlace(p.coverage, p.paths[k]) {
      assert KeyOf(p.paths[k]) in PathKeys(p.paths);
      PlaceTells(p.coverage, p.paths[k]);
    }
  }

  lemma {:induction false} KeysTell(p: Payload)
    requires AllListed(p)
    ensures CoverageKeys(p.coverage) == PathKeys(p.paths) <==> EveryPathListed(p)
  {
    ListedHasPath(p);
    if EveryPathListed(p) { ListedIsKeyed(p); }
    if CoverageKeys(p.coverage) == PathKeys(p.paths) { KeyedIsListed(p); }
  }

  // ----- the prices tell -----

  lemma {:induction false} PriceOrdered(rows: seq<PriceRow>)
    ensures PriceKeysDistinct(rows) && Sort(rows, PriceLe) == rows
      <==> forall i, j | 0 <= i < j < |rows| :: PriceFirst(rows[i], rows[j])
  {
    TextLeIsTotalOrder();
    forall a, b, c | PriceLe(a, b) && PriceLe(b, c) ensures PriceLe(a, c) {}
    assert Preorder(PriceLe);
    SortedTells(rows, PriceLe);
    if PriceKeysDistinct(rows) && Ordered(rows, PriceLe) {
      forall i, j | 0 <= i < j < |rows| ensures PriceFirst(rows[i], rows[j]) {
        assert PriceLe(rows[i], rows[j]) && (rows[i].ticker, rows[i].day) != (rows[j].ticker, rows[j].day);
      }
    }
    if forall i, j | 0 <= i < j < |rows| :: PriceFirst(rows[i], rows[j]) {
      forall i, j | 0 <= i < j < |rows| ensures PriceLe(rows[i], rows[j])
        ensures (rows[i].ticker, rows[i].day) != (rows[j].ticker, rows[j].day)
      {
        assert PriceFirst(rows[i], rows[j]);
      }
    }
  }

  lemma {:induction false} WantedTells(p: Payload, r: PriceRow)
    ensures PriceRowHolds(p, r) <==> Wanted(p, r) && r.close > 0.0 && r.adjusted > 0.0
  {
    if r.ticker in Tickers(p.paths) {
      var q :| q in p.paths && q.ticker == r.ticker;
      var k :| 0 <= k < |p.paths| && p.paths[k] == q;
    }
    if k :| 0 <= k < |p.paths| && p.paths[k].ticker == r.ticker { assert p.paths[k] in p.paths; }
  }

  lemma {:induction false} PricesTell(p: Payload)
    ensures PricesHold(p) <==> PricesListed(p)
  {
    PriceOrdered(p.prices);
    forall i | 0 <= i < |p.prices|
      ensures PriceRowHolds(p, p.prices[i])
        <==> Wanted(p, p.prices[i]) && p.prices[i].close > 0.0 && p.prices[i].adjusted > 0.0
    {
      WantedTells(p, p.prices[i]);
    }
  }

  lemma {:induction false} PricedTells(p: Payload, ticker: string, day: int)
    ensures (ticker, day) in PriceKeys(p.prices) <==> PricedOnDay(p, ticker, day)
  {
    if (ticker, day) in PriceKeys(p.prices) {
      var r :| r in p.prices && (r.ticker, r.day) == (ticker, day);
      var i :| 0 <= i < |p.prices| && p.prices[i] == r;
    }
    if i :| 0 <= i < |p.prices| && p.prices[i].ticker == ticker && p.prices[i].day == day {
      assert p.prices[i] in p.prices;
    }
  }

  lemma {:induction false} DatesTell(p: Payload)
    ensures PathsPriced(p) <==> EveryDatePriced(p)
  {
    forall i, j | 0 <= i < |p.coverage| && 0 <= j < |p.coverage[i].dates|
      ensures (p.coverage[i].path.ticker, p.coverage[i].dates[j]) in PriceKeys(p.prices)
        <==> PricedOnDay(p, p.coverage[i].path.ticker, p.coverage[i].dates[j])
    {
      PricedTells(p, p.coverage[i].path.ticker, p.coverage[i].dates[j]);
    }
    if PathsPriced(p) {
      forall i, j | 0 <= i < |p.coverage| && 0 <= j < |p.coverage[i].dates|
        ensures PricedOnDay(p, p.coverage[i].path.ticker, p.coverage[i].dates[j])
      {
        assert DatesPriced(p.coverage[i].path.ticker, p.coverage[i].dates, PriceKeys(p.prices));
      }
    }
  }

  /** A snapshot is accepted exactly when all of that holds. */
  lemma {:induction false} AcceptedTells(p: Payload)
    ensures Accepted(p) <==> Holds(p)
  {
    assert SessionsHold(p) <==> p.start <= p.end && Covers(p.sessions, p.start, p.end);
    if SessionsHold(p) { CoverageTells(p); }
    PricesTell(p);
    DatesTell(p);
  }
}
