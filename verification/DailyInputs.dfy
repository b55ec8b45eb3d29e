/** The frozen daily inputs: what an accepted snapshot guarantees the two daily ledgers. */
module DailyInputs {
  import opened Optional
  import opened Ordering
  import opened TextOrder
  import opened Books
  import PrimaryDaily
  import ReferenceDaily

  datatype SelectedPath = SelectedPath(
    cohort: string, ticker: string, mTicker: string, permaticker: int, horizon: int, entry: int, exit: int)

  datatype Coverage = Coverage(path: SelectedPath, count: int, dates: seq<int>)

  datatype PriceRow = PriceRow(ticker: string, day: int, close: real, adjusted: real)

  datatype Payload = Payload(
    start: int, end: int, sessions: seq<int>, paths: seq<SelectedPath>, coverage: seq<Coverage>, prices: seq<PriceRow>)

  datatype Error =
    | ReversedEnvelope | SessionsNotExact | CoverageKeyUnknown | CoverageNotExact | CoverageNotExhaustive
    | CoverageUnsorted
    | PriceOutside | PriceRepeated | PriceNotPositive | PricesUnsorted | PriceMissing

  function KeyOf(p: SelectedPath): (string, string) { (p.cohort, p.mTicker) }

  predicate Ascending(s: seq<int>) { forall i, j | 0 <= i < j < |s| :: s[i] < s[j] }

  predicate CoverageLe(a: Coverage, b: Coverage) {
    a.path.entry < b.path.entry || (a.path.entry == b.path.entry &&
      (a.path.horizon < b.path.horizon || (a.path.horizon == b.path.horizon && TextLe(a.path.mTicker, b.path.mTicker))))
  }

  predicate PriceLe(a: PriceRow, b: PriceRow) {
    if a.ticker == b.ticker then a.day <= b.day else TextLe(a.ticker, b.ticker)
  }

  function IndexOf(sessions: seq<int>, day: int): Option<nat> { SessionIndex(sessions, day) }

  /** `sessions[entry_index : exit_index + 1]`, empty when either end is missing or they are reversed. */
  function Slice(sessions: seq<int>, entry: int, exit: int): seq<int> {
    var i, j := IndexOf(sessions, entry), IndexOf(sessions, exit);
    if i.None? || j.None? || i.value > j.value then [] else sessions[i.value..j.value + 1]
  }

  predicate SessionsHold(p: Payload) {
    p.start <= p.end && p.sessions != [] && Ascending(p.sessions)
    && p.sessions[0] == p.start && p.sessions[|p.sessions| - 1] == p.end
  }

  /** The selected path of a key. */
  function PathOf(paths: seq<SelectedPath>, key: (string, string)): Option<SelectedPath> {
    if paths == [] then None
    else if KeyOf(paths[|paths| - 1]) == key then Some(paths[|paths| - 1])
    else PathOf(paths[..|paths| - 1], key)
  }

  predicate CoverageRowHolds(p: Payload, c: Coverage) {
    && PathOf(p.paths, KeyOf(c.path)) == Some(c.path)
    && c.dates == Slice(p.sessions, c.path.entry, c.path.exit)
    && |c.dates| == c.path.horizon + 1 && c.count == c.path.horizon + 1
  }

  predicate CoverageKeysDistinct(rows: seq<Coverage>) {
    forall i, j | 0 <= i < j < |rows| :: KeyOf(rows[i].path) != KeyOf(rows[j].path)
  }

  function CoverageKeys(rows: seq<Coverage>): set<(string, string)> { set c | c in rows :: KeyOf(c.path) }

  function PathKeys(paths: seq<SelectedPath>): set<(string, string)> { set q | q in paths :: KeyOf(q) }

  predicate CoverageHolds(p: Payload) {
    && (forall i | 0 <= i < |p.coverage| :: CoverageRowHolds(p, p.coverage[i]))
    && CoverageKeysDistinct(p.coverage)
    && CoverageKeys(p.coverage) == PathKeys(p.paths)
    && Sort(p.coverage, CoverageLe) == p.coverage
  }

  function Tickers(paths: seq<SelectedPath>): set<string> { set q | q in paths :: q.ticker }

  predicate PriceRowHolds(p: Payload, r: PriceRow) {
    r.ticker in Tickers(p.paths) && r.day in p.sessions && r.close > 0.0 && r.adjusted > 0.0
  }

  predicate PriceKeysDistinct(rows: seq<PriceRow>) {
    forall i, j | 0 <= i < j < |rows| :: (rows[i].ticker, rows[i].day) != (rows[j].ticker, rows[j].day)
  }

  function PriceKeys(rows: seq<PriceRow>): set<(string, int)> { set r | r in rows :: (r.ticker, r.day) }

  predicate PricesHold(p: Payload) {
    && (forall i | 0 <= i < |p.prices| :: PriceRowHolds(p, p.prices[i]))
    && PriceKeysDistinct(p.prices)
    && Sort(p.prices, PriceLe) == p.prices
  }

  predicate PathsPriced(p: Payload) {
    forall i | 0 <= i < |p.coverage| :: DatesPriced(p.coverage[i].path.ticker, p.coverage[i].dates, PriceKeys(p.prices))
  }

  predicate DatesPriced(ticker: string, dates: seq<int>, keys: set<(string, int)>) {
    forall j | 0 <= j < |dates| :: (ticker, dates[j]) in keys
  }

  predicate Accepted(p: Payload) { SessionsHold(p) && CoverageHolds(p) && PricesHold(p) && PathsPriced(p) }

  /** The first fault of a snapshot, checks taken in the order sessions, coverage, prices, paths. */
  predicate HasFault(p: Payload, e: Error) {
    match e
    case ReversedEnvelope => p.start > p.end
    case SessionsNotExact => p.start <= p.end && !SessionsHold(p)
    case CoverageKeyUnknown | CoverageNotExact | CoverageNotExhaustive | CoverageUnsorted =>
      SessionsHold(p) && HasCoverageFault(p, e)
    case PriceOutside | PriceRepeated | PriceNotPositive | PricesUnsorted =>
      SessionsHold(p) && CoverageHolds(p) && HasPriceFault(p, e)
    case PriceMissing => SessionsHold(p) && CoverageHolds(p) && PricesHold(p) && !PathsPriced(p)
  }

  predicate HasCoverageFault(p: Payload, e: Error) {
    match e
    case CoverageKeyUnknown =>
      exists i | 0 <= i < |p.coverage| ::
        || (forall k | 0 <= k < |p.paths| :: KeyOf(p.paths[k]) != KeyOf(p.coverage[i].path))
        || exists j | 0 <= j < i :: KeyOf(p.coverage[j].path) == KeyOf(p.coverage[i].path)
    case CoverageNotExact => exists i | 0 <= i < |p.coverage| :: !CoverageRowHolds(p, p.coverage[i])
    case CoverageNotExhaustive =>
      exists k | 0 <= k < |p.paths| ::
        forall i | 0 <= i < |p.coverage| :: KeyOf(p.coverage[i].path) != KeyOf(p.paths[k])
    case CoverageUnsorted => Sort(p.coverage, CoverageLe) != p.coverage
    case _ => false
  }

  predicate HasPriceFault(p: Payload, e: Error) {
    match e
    case PriceOutside =>
      exists i | 0 <= i < |p.prices| ::
        (forall k | 0 <= k < |p.paths| :: p.paths[k].ticker != p.prices[i].ticker) || p.prices[i].day !in p.sessions
    case PriceRepeated =>
      exists i, j | 0 <= j < i < |p.prices| ::
        p.prices[j].ticker == p.prices[i].ticker && p.prices[j].day == p.prices[i].day
    case PriceNotPositive => exists i | 0 <= i < |p.prices| :: p.prices[i].close <= 0.0 || p.prices[i].adjusted <= 0.0
    case PricesUnsorted => Sort(p.prices, PriceLe) != p.prices
    case _ => false
  }

  // ----- the validator -----

  /** The session, coverage and price part of `_validate_internal_payload`. */
  method ValidateInternalPayload(p: Payload) returns (error: Option<Error>)
    ensures error.None? <==> Accepted(p)
    ensures error.Some? ==> HasFault(p, error.value)
  {
    if p.start > p.end { return Some(ReversedEnvelope); }
    if p.sessions == [] || !Ascending(p.sessions) || p.sessions[0] != p.start || p.sessions[|p.sessions| - 1] != p.end {
      return Some(SessionsNotExact);
    }
    error := ValidateCoverage(p);
    if error.Some? { return; }
    error := ValidatePrices(p);
    if error.Some? { return; }
    error := ValidatePathPrices(p);
  }

  method ValidatePathPrices(p: Payload) returns (error: Option<Error>)
    ensures error.None? <==> PathsPriced(p)
    ensures error.Some? ==> error.value == PriceMissing
  {
    var keys := PriceKeys(p.prices);
    for i := 0 to |p.coverage|
      invariant forall k | 0 <= k < i :: DatesPriced(p.coverage[k].path.ticker, p.coverage[k].dates,
                                                     PriceKeys(p.prices))
    {
      if !DatesPriced(p.coverage[i].path.ticker, p.coverage[i].dates, keys) { return Some(PriceMissing); }
    }
    return None;
  }

  method ValidateCoverage(p: Payload) returns (error: Option<Error>)
    ensures error.None? <==> CoverageHolds(p)
    ensures error.Some? ==> HasCoverageFault(p, error.value)
  {
    var keys: set<(string, string)> := {};
    for i := 0 to |p.coverage|
      invariant keys == CoverageKeys(p.coverage[..i])
      invariant forall k | 0 <= k < i :: CoverageRowHolds(p, p.coverage[k])
      invariant CoverageKeysDistinct(p.coverage[..i])
    {
      var row := p.coverage[i];
      var key := KeyOf(row.path);
      CoverageNext(p.coverage, i);
      if PathOf(p.paths, key).None? || key in keys {
        UnknownKey(p, i);
        return Some(CoverageKeyUnknown);
      }
      keys := keys + {key};
      if !CoverageRowHolds(p, row) { return Some(CoverageNotExact); }
    }
    assert p.coverage[..|p.coverage|] == p.coverage;
    if keys != PathKeys(p.paths) {
      NotExhaustive(p);
      return Some(CoverageNotExhaustive);
    }
    if Sort(p.coverage, CoverageLe) != p.coverage { return Some(CoverageUnsorted); }
    return None;
  }

  lemma {:induction false} PathFound(paths: seq<SelectedPath>, key: (string, string))
    ensures PathOf(paths, key).None? <==> forall k | 0 <= k < |paths| :: KeyOf(paths[k]) != key
  {
    if paths != [] {
      var front := paths[..|paths| - 1];
      PathFound(front, key);
      assert forall k | 0 <= k < |front| :: front[k] == paths[k];
    }
  }

  lemma UnknownKey(p: Payload, i: nat)
    requires i < |p.coverage|
    requires
      || PathOf(p.paths, KeyOf(p.coverage[i].path)).None?
      || KeyOf(p.coverage[i].path) in CoverageKeys(p.coverage[..i])
    ensures HasCoverageFault(p, CoverageKeyUnknown)
  {
    PathFound(p.paths, KeyOf(p.coverage[i].path));
    if KeyOf(p.coverage[i].path) in CoverageKeys(p.coverage[..i]) {
      var c :| c in p.coverage[..i] && KeyOf(c.path) == KeyOf(p.coverage[i].path);
      var j :| 0 <= j < i && p.coverage[..i][j] == c;
      assert KeyOf(p.coverage[j].path) == KeyOf(p.coverage[i].path);
    }
  }

  lemma NotExhaustive(p: Payload)
    requires forall i | 0 <= i < |p.coverage| :: CoverageRowHolds(p, p.coverage[i])
    requires CoverageKeys(p.coverage) != PathKeys(p.paths)
    ensures HasCoverageFault(p, CoverageNotExhaustive)
  {
    forall key | key in CoverageKeys(p.coverage) ensures key in PathKeys(p.paths) {
      var c :| c in p.coverage && KeyOf(c.path) == key;
      var i :| 0 <= i < |p.coverage| && p.coverage[i] == c;
      PathFound(p.paths, key);
      assert CoverageRowHolds(p, p.coverage[i]);
      var k :| 0 <= k < |p.paths| && KeyOf(p.paths[k]) == key;
      assert p.paths[k] in p.paths;
    }
    var key :| key in PathKeys(p.paths) && key !in CoverageKeys(p.coverage);
    var q :| q in p.paths && KeyOf(q) == key;
    var k :| 0 <= k < |p.paths| && p.paths[k] == q;
    forall i | 0 <= i < |p.coverage| ensures KeyOf(p.coverage[i].path) != KeyOf(p.paths[k]) {
      assert p.coverage[i] in p.coverage;
    }
  }

  lemma CoverageNext(rows: seq<Coverage>, i: nat)
    requires i < |rows|
    ensures CoverageKeys(rows[..i + 1]) == CoverageKeys(rows[..i]) + {KeyOf(rows[i].path)}
    ensures CoverageKeysDistinct(rows[..i + 1]) <==>
        CoverageKeysDistinct(rows[..i]) && KeyOf(rows[i].path) !in CoverageKeys(rows[..i])
    ensures !CoverageKeysDistinct(rows[..i + 1]) ==> !CoverageKeysDistinct(rows)
  {
    assert rows[..i + 1] == rows[..i] + [rows[i]];
    if CoverageKeysDistinct(rows[..i + 1]) {
      forall k | 0 <= k < i ensures KeyOf(rows[k].path) != KeyOf(rows[i].path) {
        assert rows[..i + 1][k] == rows[k] && rows[..i + 1][i] == rows[i];
      }
    }
    if KeyOf(rows[i].path) in CoverageKeys(rows[..i]) {
      var c :| c in rows[..i] && KeyOf(c.path) == KeyOf(rows[i].path);
      var k :| 0 <= k < i && rows[..i][k] == c;
      assert rows[..i + 1][k] == c && rows[..i + 1][i] == rows[i];
    }
  }

  method ValidatePrices(p: Payload) returns (error: Option<Error>)
    ensures error.None? <==> PricesHold(p)
    ensures error.Some? ==> HasPriceFault(p, error.value)
  {
    var keys: set<(string, int)> := {};
    for i := 0 to |p.prices|
      invariant keys == PriceKeys(p.prices[..i])
      invariant forall k | 0 <= k < i :: PriceRowHolds(p, p.prices[k])
      invariant PriceKeysDistinct(p.prices[..i])
    {
      var row := p.prices[i];
      PriceNext(p.prices, i);
      if row.ticker !in Tickers(p.paths) || row.day !in p.sessions { return Some(PriceOutside); }
      if (row.ticker, row.day) in keys { return Some(PriceRepeated); }
      keys := keys + {(row.ticker, row.day)};
      if row.close <= 0.0 || row.adjusted <= 0.0 { return Some(PriceNotPositive); }
    }
    assert p.prices[..|p.prices|] == p.prices;
    if Sort(p.prices, PriceLe) != p.prices { return Some(PricesUnsorted); }
    return None;
  }

  lemma PriceNext(rows: seq<PriceRow>, i: nat)
    requires i < |rows|
    ensures PriceKeys(rows[..i + 1]) == PriceKeys(rows[..i]) + {(rows[i].ticker, rows[i].day)}
    ensures PriceKeysDistinct(rows[..i + 1]) <==>
        PriceKeysDistinct(rows[..i]) && (rows[i].ticker, rows[i].day) !in PriceKeys(rows[..i])
    ensures !PriceKeysDistinct(rows[..i + 1]) ==> !PriceKeysDistinct(rows)
  {
    assert rows[..i + 1] == rows[..i] + [rows[i]];
    if PriceKeysDistinct(rows[..i + 1]) {
      forall k | 0 <= k < i ensures (rows[k].ticker, rows[k].day) != (rows[i].ticker, rows[i].day) {
        assert rows[..i + 1][k] == rows[k] && rows[..i + 1][i] == rows[i];
      }
    }
    if (rows[i].ticker, rows[i].day) in PriceKeys(rows[..i]) {
      var r :| r in rows[..i] && (r.ticker, r.day) == (rows[i].ticker, rows[i].day);
      var k :| 0 <= k < i && rows[..i][k] == r;
      assert rows[..i + 1][k] == r && rows[..i + 1][i] == rows[i];
    }
  }

  // ----- what an accepted snapshot guarantees -----

  /** The prices the ledgers read: closes by ticker and day. */
  function PriceMap(rows: seq<PriceRow>): Prices {
    if rows == [] then map[]
    else
      var last := rows[|rows| - 1];
      PriceMap(rows[..|rows| - 1])[(last.ticker, last.day) := last.close]
  }

  lemma {:induction false} PriceMapHolds(rows: seq<PriceRow>)
    requires forall i | 0 <= i < |rows| :: rows[i].close > 0.0
    ensures forall key :: key in PriceMap(rows) <==> key in PriceKeys(rows)
    ensures PositivePrices(PriceMap(rows))
  {
    if rows != [] {
      var front := rows[..|rows| - 1];
      PriceMapHolds(front);
      assert rows == front + [rows[|rows| - 1]];
    }
  }

  predicate DistinctPaths(paths: seq<SelectedPath>) {
    forall i, j | 0 <= i < j < |paths| :: KeyOf(paths[i]) != KeyOf(paths[j])
  }

  lemma {:induction false} PathOfKey(paths: seq<SelectedPath>, q: SelectedPath)
    requires DistinctPaths(paths) && q in paths
    ensures PathOf(paths, KeyOf(q)) == Some(q)
  {
    var front, last := paths[..|paths| - 1], paths[|paths| - 1];
    if q != last {
      assert q in front;
      var i :| 0 <= i < |front| && front[i] == q;
      assert paths[i] == q;
      PathOfKey(front, q);
    }
  }

  /** The path runs over consecutive sessions from entry to exit, with a positive close at each. */
  predicate Whole(sessions: seq<int>, prices: Prices, ticker: string, entry: int, exit: int, horizon: int) {
    && horizon >= 0
    && var i := IndexOf(sessions, entry);
    && i.Some? && i.value + horizon < |sessions| && IndexOf(sessions, exit) == Some(i.value + horizon)
    && forall k | i.value <= k <= i.value + horizon :: PricedOn(sessions, prices, ticker, k)
  }

  predicate PricedOn(sessions: seq<int>, prices: Prices, ticker: string, k: int) {
    0 <= k < |sessions| && (ticker, sessions[k]) in prices && prices[(ticker, sessions[k])] > 0.0
  }

  lemma CoveredBy(p: Payload, q: SelectedPath) returns (k: nat)
    requires Accepted(p) && DistinctPaths(p.paths) && q in p.paths
    ensures k < |p.coverage| && p.coverage[k].path == q
  {
    assert KeyOf(q) in PathKeys(p.paths);
    assert KeyOf(q) in CoverageKeys(p.coverage);
    var c :| c in p.coverage && KeyOf(c.path) == KeyOf(q);
    k :| 0 <= k < |p.coverage| && p.coverage[k] == c;
    assert CoverageRowHolds(p, p.coverage[k]);
    PathOfKey(p.paths, q);
  }

  /** Every selected path of an accepted snapshot is whole. */
  lemma SelectedPathIsWhole(p: Payload, q: SelectedPath)
    requires Accepted(p) && DistinctPaths(p.paths) && q in p.paths && q.horizon >= 0
    ensures Whole(p.sessions, PriceMap(p.prices), q.ticker, q.entry, q.exit, q.horizon)
    ensures PositivePrices(PriceMap(p.prices))
  {
    var k := CoveredBy(p, q);
    assert CoverageRowHolds(p, p.coverage[k]);
    assert DatesPriced(q.ticker, p.coverage[k].dates, PriceKeys(p.prices));
    forall i | 0 <= i < |p.prices| ensures p.prices[i].close > 0.0 { assert PriceRowHolds(p, p.prices[i]); }
    PriceMapHolds(p.prices);
    CoveredIsWhole(p.sessions, p.coverage[k].dates, q, PriceMap(p.prices));
  }

  lemma CoveredIsWhole(sessions: seq<int>, dates: seq<int>, q: SelectedPath, prices: Prices)
    requires dates == Slice(sessions, q.entry, q.exit) && |dates| == q.horizon + 1 && q.horizon >= 0
    requires forall j | 0 <= j < |dates| :: (q.ticker, dates[j]) in prices
    requires PositivePrices(prices)
    ensures Whole(sessions, prices, q.ticker, q.entry, q.exit, q.horizon)
  {
    var i := IndexOf(sessions, q.entry).value;
    forall k | i <= k <= i + q.horizon ensures PricedOn(sessions, prices, q.ticker, k) {
      assert dates[k - i] == sessions[k];
    }
  }

  /** The ledger row belongs to a selected path of the snapshot. */
  predicate RowSelected(p: Payload, r: PrimaryDaily.Row) {
    exists q :: q in p.paths && FromPath(r, q)
  }

  predicate FromPath(r: PrimaryDaily.Row, q: SelectedPath) {
    r.ticker == q.ticker && r.entryDate == q.entry && r.exitDate == q.exit && r.horizon == q.horizon && q.horizon >= 0
  }

  /** On an accepted snapshot the primary ledger cannot miss a session, find the wrong horizon, or miss a price. */
  lemma PrimaryIsTotal(p: Payload, rows: seq<PrimaryDaily.Row>, summary: Option<PrimaryDaily.Summary>)
    requires Accepted(p) && DistinctPaths(p.paths) && rows != [] && PrimaryDaily.DatesShared(rows)
    requires forall i | 0 <= i < |rows| :: RowSelected(p, rows[i])
    ensures var prices := PriceMap(p.prices);
      && PositivePrices(prices)
      && (forall i | 0 <= i < |rows| ::
            Whole(p.sessions, prices, rows[i].ticker, rows[0].entryDate, rows[0].exitDate, rows[i].horizon))
      && (PrimaryDaily.CohortAccepted(rows, summary, p.sessions, prices) ==>
            var b := PrimaryDaily.BookOf(rows, summary, p.sessions, prices);
            b.AllPriced() && PrimaryDaily.PricedThrough(b, |b.path|))
  {
    var prices := PriceMap(p.prices);
    forall i | 0 <= i < |rows|
      ensures Whole(p.sessions, prices, rows[i].ticker, rows[0].entryDate, rows[0].exitDate, rows[i].horizon)
      ensures PositivePrices(prices)
    {
      var q :| q in p.paths && FromPath(rows[i], q);
      SelectedPathIsWhole(p, q);
    }
    assert RowSelected(p, rows[0]);
    if PrimaryDaily.CohortAccepted(rows, summary, p.sessions, prices) {
      BookIsPriced(p.sessions, prices, rows, summary);
    }
  }

  lemma BookIsPriced(sessions: seq<int>, prices: Prices, rows: seq<PrimaryDaily.Row>,
                     summary: Option<PrimaryDaily.Summary>)
    requires PositivePrices(prices) && PrimaryDaily.CohortAccepted(rows, summary, sessions, prices)
    requires forall i | 0 <= i < |rows| :: Whole(sessions, prices, rows[i].ticker, rows[0].entryDate,
                                                 rows[0].exitDate, rows[i].horizon)
    ensures var b := PrimaryDaily.BookOf(rows, summary, sessions, prices);
      b.AllPriced() && PrimaryDaily.PricedThrough(b, |b.path|)
  {
    var b := PrimaryDaily.BookOf(rows, summary, sessions, prices);
    var start := IndexOf(sessions, rows[0].entryDate).value;
    forall i, t | 0 <= i < |b.items| && 0 <= t < |b.path| ensures b.Priced(i, t) {
      assert Whole(sessions, prices, rows[i].ticker, rows[0].entryDate, rows[0].exitDate, rows[i].horizon);
      assert b.items[i].ticker == rows[i].ticker && b.path[t] == sessions[start + t];
      assert PricedOn(sessions, prices, rows[i].ticker, start + t);
    }
    PrimaryDaily.PricedThroughAll(b, |b.path|);
  }

  /** Nor can the event ledger: the path it slices has every session, priced for every selected name. */
  lemma ReferenceIsTotal(p: Payload, names: seq<ReferenceDaily.Selected>, paths: seq<SelectedPath>, entry: int,
                         exit: int, horizon: int)
    requires Accepted(p) && DistinctPaths(p.paths) && |names| == |paths| && names != [] && horizon >= 0
    requires forall i | 0 <= i < |names| ::
      paths[i] in p.paths && paths[i].ticker == names[i].ticker
      && paths[i].entry == entry && paths[i].exit == exit && paths[i].horizon == horizon
    ensures |Slice(p.sessions, entry, exit)| == horizon + 1
    ensures ReferenceDaily.PathsPriced(names, Slice(p.sessions, entry, exit), PriceMap(p.prices))
  {
    var path, prices := Slice(p.sessions, entry, exit), PriceMap(p.prices);
    SelectedPathIsWhole(p, paths[0]);
    SliceIsPriced(p.sessions, prices, paths[0].ticker, entry, exit, horizon);
    forall i, t | 0 <= i < |names| && 0 <= t < |path|
      ensures (names[i].ticker, path[t]) in prices && prices[(names[i].ticker, path[t])] > 0.0
    {
      SelectedPathIsWhole(p, paths[i]);
      SliceIsPriced(p.sessions, prices, names[i].ticker, entry, exit, horizon);
    }
  }

  /** So none of the event ledger's own refusals of a path can fire. */
  lemma ReferencePathIsSound(p: Payload, name: ReferenceDaily.Selected, path: SelectedPath, perLeg: int)
    requires Accepted(p) && DistinctPaths(p.paths) && path in p.paths && path.ticker == name.ticker && path.horizon >= 0
    ensures ReferenceDaily.PathSound(ReferenceDaily.SelectedPath(name, path.entry, path.exit, path.horizon, perLeg),
                                     p.sessions, PriceMap(p.prices))
  {
    var sessions, prices := p.sessions, PriceMap(p.prices);
    SelectedPathIsWhole(p, path);
    var start := SessionIndex(sessions, path.entry).value;
    forall t | start <= t <= start + path.horizon ensures (name.ticker, sessions[t]) in prices {
      assert PricedOn(sessions, prices, path.ticker, start + (t - start));
    }
  }

  lemma SliceIsPriced(sessions: seq<int>, prices: Prices, ticker: string, entry: int, exit: int, horizon: int)
    requires Whole(sessions, prices, ticker, entry, exit, horizon)
    ensures |Slice(sessions, entry, exit)| == horizon + 1
    ensures forall t | 0 <= t <= horizon ::
      (ticker, Slice(sessions, entry, exit)[t]) in prices && prices[(ticker, Slice(sessions, entry, exit)[t])] > 0.0
  {
    var i := IndexOf(sessions, entry).value;
    forall t | 0 <= t <= horizon
      ensures (ticker, Slice(sessions, entry, exit)[t]) in prices
          && prices[(ticker, Slice(sessions, entry, exit)[t])] > 0.0
    {
      assert PricedOn(sessions, prices, ticker, i + t);
      assert Slice(sessions, entry, exit)[t] == sessions[i + t];
    }
  }
}
