/** The independent daily ledger: the event loop of analysis/pead_daily_reference.py. Positions and
    receivables are maps keyed by name; cash moves name by name; gross exposure is split by leg. */
module ReferenceDaily {
  import opened Rounding
  import opened Optional
  import opened Sums
  import opened Books
  import opened BookLaws
  import opened WrittenRows

  /** A selected path with its exact target and per-share distributions. */
  datatype Selected = Selected(ticker: string, mTicker: string, leg: Leg, target: real, distributions: seq<Accrual>,
                               entryPrice: real, exitPrice: real, cashTotal: real, candidate: real)

  /** A selected path as the frozen selection lists it. */
  datatype SelectedPath = SelectedPath(name: Selected, entryDate: int, exitDate: int, horizon: nat, perLeg: int)

  datatype Error =
    | BoundaryMissing | WrongHorizon | MissingBar | NotTwoTails | PathsDiffer
    | EntryPriceDiffers | NoTarget | ExitPriceDiffers | ReturnDiffers | TerminalDiffers

  datatype Outcome = Done(sessions: seq<Session>) | Failed(error: Error)

  const Tolerance: real := 0.000_000_000_001

  /** A per-share distribution as the signed P&L of a holding. */
  function ScaledOne(a: Accrual, quantity: real): Accrual { a.(amount := quantity * a.amount) }

  function Scaled(amounts: seq<Accrual>, quantity: real): seq<Accrual> {
    seq(|amounts|, i requires 0 <= i < |amounts| => ScaledOne(amounts[i], quantity))
  }

  function ExactItem(s: Selected, k: int, entryClose: real): Item
    requires k > 0 && entryClose != 0.0
  {
    var quantity := s.target / entryClose;
    var fee := 0.003 / k as real;
    Item(s.ticker, s.mTicker, s.leg, s.target, quantity, fee, fee, Scaled(s.distributions, quantity))
  }

  function CloseOn(prices: Prices, ticker: string, day: int): real {
    if (ticker, day) in prices then prices[(ticker, day)] else 0.0
  }

  /** Every selected path has a positive close on every session of the path. */
  predicate PathsPriced(names: seq<Selected>, path: seq<int>, prices: Prices) {
    forall i, t :: 0 <= i < |names| && 0 <= t < |path| ==>
      (names[i].ticker, path[t]) in prices && prices[(names[i].ticker, path[t])] > 0.0
  }

  predicate DistinctSelected(names: seq<Selected>) {
    forall i, j :: 0 <= i < j < |names| ==> names[i].mTicker != names[j].mTicker
  }

  function ExactBook(names: seq<Selected>, k: int, path: seq<int>, prices: Prices): (b: Book)
    requires k > 0 && |path| > 0 && PathsPriced(names, path, prices)
  {
    Book(seq(|names|, i requires 0 <= i < |names| => ExactItem(names[i], k, CloseOn(prices, names[i].ticker, path[0]))),
         path, prices)
  }

  function OpenCount(b: Book, t: int, n: nat): nat {
    if n == 0 then 0 else OpenCount(b, t, n - 1) + (if b.Position(n - 1, t) != 0.0 then 1 else 0)
  }

  function ReferenceName(b: Book, i: nat, t: nat): NameState
    requires i < |b.items| && t < |b.path|
  {
    b.NameAt(i, t, 1, b.PriceMove(i, t))
  }

  function ReferenceCohort(b: Book, t: nat): CohortState {
    b.CohortAt(t, 1, SumTo(|b.items|, b.LongByLeg(t)), -SumTo(|b.items|, b.ShortByLeg(t)), None,
               OpenCount(b, t, |b.items|))
  }

  function ReferenceSession(b: Book, t: nat): Session
    requires t < |b.path|
  {
    Session(b.path[t], ReferenceCohort(b, t), seq(|b.items|, i requires 0 <= i < |b.items| => ReferenceName(b, i, t)))
  }

  function FixedSessions(b: Book, n: nat): seq<Session>
    requires n <= |b.path|
  {
    seq(n, t requires 0 <= t < n => Fix(ReferenceSession(b, t)))
  }

  // ----- what the rows report -----

  /** One session's rows: every name's, and the cohort's with gross exposure by leg. */
  ghost predicate SessionReported(b: Book, t: nat, s: Session)
    requires t < |b.path|
  {
    && s.day == b.path[t] && |s.names| == |b.items|
    && (forall i :: 0 <= i < |b.items| ==> NameReported(b, i, t, 1, b.PriceMove(i, t), s.names[i]))
    && CohortReported(b, t, 1, SumTo(|b.items|, b.LongByLeg(t)), -SumTo(|b.items|, b.ShortByLeg(t)), s.cohort)
    && s.cohort.checkpointFees.None? && s.cohort.openCount == OpenCount(b, t, |b.items|)
  }

  ghost predicate BookReported(b: Book, sessions: seq<Session>) {
    |sessions| == |b.path| && forall t :: 0 <= t < |b.path| ==> SessionReported(b, t, sessions[t])
  }

  lemma {:induction false} SessionIsReported(b: Book, t: nat)
    requires t < |b.path|
    ensures SessionReported(b, t, Fix(ReferenceSession(b, t)))
  {
    CohortRowIsReported(b, t);
    NamesAreReported(b, t, Fix(ReferenceSession(b, t)).names);
  }

  lemma {:induction false} CohortRowIsReported(b: Book, t: nat)
    ensures var c := FixCohort(ReferenceCohort(b, t));
      && CohortReported(b, t, 1, SumTo(|b.items|, b.LongByLeg(t)), -SumTo(|b.items|, b.ShortByLeg(t)), c)
      && c.checkpointFees.None? && c.openCount == OpenCount(b, t, |b.items|)
  {
    CohortIsReported(b, t, 1, SumTo(|b.items|, b.LongByLeg(t)), -SumTo(|b.items|, b.ShortByLeg(t)), None,
                     OpenCount(b, t, |b.items|));
  }

  lemma {:induction false} NamesAreReported(b: Book, t: nat, names: seq<NameState>)
    requires t < |b.path| && |names| == |b.items|
    requires forall i :: 0 <= i < |names| ==> names[i] == FixName(ReferenceName(b, i, t))
    ensures forall i :: 0 <= i < |b.items| ==> NameReported(b, i, t, 1, b.PriceMove(i, t), names[i])
  {
    forall i | 0 <= i < |b.items| ensures NameReported(b, i, t, 1, b.PriceMove(i, t), names[i]) {
      NameIsReported(b, i, t, 1, b.PriceMove(i, t));
    }
  }

  lemma {:induction false} BookIsReported(b: Book)
    ensures BookReported(b, FixedSessions(b, |b.path|))
  {
    forall t | 0 <= t < |b.path| ensures SessionReported(b, t, FixedSessions(b, |b.path|)[t]) {
      SessionIsReported(b, t);
    }
  }

  /** Cash moved for one name at session t: minus its order flow, minus its fee. */
  function CashMoves(b: Book, t: int): int -> real { i => -(b.Order(i, t) * b.Close(i, t)) - b.FeeOn(i, t) }

  /** The event loop's state after the first j names of session t. */
  datatype Events = Events(cash: real, fees: real, positions: map<string, real>, receivables: map<string, real>)

  function CashAt(b: Book, t: nat, j: nat): real {
    (if t == 0 then 1.0 else b.Cash(t - 1)) + SumTo(j, CashMoves(b, t))
  }

  function FeesAt(b: Book, t: nat, j: nat): real {
    (if t == 0 then 0.0 else SumTo(|b.items|, b.Fees(t - 1))) + SumTo(j, b.CheckpointFees(t))
  }

  /** Name i's entries in the maps once the first j names of session t are handled. */
  predicate MappedAt(b: Book, t: nat, j: nat, i: int, e: Events)
    requires 0 <= i < |b.items|
  {
    var m := b.items[i].mTicker;
    && m in e.positions && m in e.receivables
    && e.positions[m] == (if i < j then b.Position(i, t) else if t == 0 then 0.0 else b.Position(i, t - 1))
    && e.receivables[m] == b.Accrued(i, 1, if i < j then t else t - 1)
  }

  predicate EventsAt(b: Book, t: nat, j: nat, e: Events) {
    && e.cash == CashAt(b, t, j)
    && e.fees == FeesAt(b, t, j)
    && forall i :: 0 <= i < |b.items| ==> MappedAt(b, t, j, i, e)
  }

  lemma EventsStep(b: Book, t: nat, j: nat, e: Events)
    requires j < |b.items| && t < |b.path| && b.DistinctNames() && EventsAt(b, t, j, e) && MappedAt(b, t, j, j, e)
    ensures EventsAt(b, t, j + 1, Advance(b, t, j, e))
  {
    var m, a := b.items[j].mTicker, Advance(b, t, j, e);
    assert a.cash == e.cash + CashMoves(b, t)(j);
    assert a.fees == e.fees + b.CheckpointFees(t)(j);
    var next := j + 1;
    forall i | 0 <= i < |b.items| ensures MappedAt(b, t, next, i, a) {
      assert MappedAt(b, t, j, i, e);
      assert i != j ==> b.items[i].mTicker != m;
    }
  }

  /** One name's events: accrue (never at entry), trade, pay the fee. */
  function Advance(b: Book, t: nat, j: nat, e: Events): Events
    requires j < |b.items| && b.items[j].mTicker in e.receivables && b.items[j].mTicker in e.positions
  {
    var m := b.items[j].mTicker;
    Events(e.cash + CashMoves(b, t)(j), e.fees + b.FeeOn(j, t),
           e.positions[m := b.Position(j, t)],
           e.receivables[m := e.receivables[m] + (if t == 0 then 0.0 else b.AccruedOn(j, t))])
  }

  /** Applies one day's distributions of a name, one action at a time. */
  method ApplyDistributions(distributions: seq<Accrual>, quantity: real, day: int, balance: real)
    returns (accrual: real, keys: seq<string>, after: real)
    ensures accrual == DatedTotal(Scaled(distributions, quantity), day)
    ensures keys == DatedKeys(Scaled(distributions, quantity), day)
    ensures after == balance + accrual
  {
    var scaled := Scaled(distributions, quantity);
    accrual, keys, after := 0.0, [], balance;
    for a := 0 to |distributions|
      invariant accrual == DatedTotal(scaled[..a], day) && keys == DatedKeys(scaled[..a], day)
      invariant after == balance + accrual
    {
      assert scaled[..a + 1][..a] == scaled[..a];
      if distributions[a].date == day {
        var signed := quantity * distributions[a].amount;
        after := after + signed;
        accrual := accrual + signed;
        keys := keys + [distributions[a].key];
      }
    }
    assert scaled[..|distributions|] == scaled;
  }

  function NamesTo(b: Book, t: nat, n: nat): seq<NameState>
    requires t < |b.path| && n <= |b.items|
  {
    seq(n, i requires 0 <= i < n => ReferenceName(b, i, t))
  }

  lemma AppendName(b: Book, t: nat, n: nat)
    requires t < |b.path| && n < |b.items|
    ensures NamesTo(b, t, n + 1) == NamesTo(b, t, n) + [ReferenceName(b, n, t)]
  {
  }

  /** One name at one session, from the event loop's maps. */
  method EventName(s: Selected, b: Book, t: nat, j: nat, e: Events) returns (state: NameState, after: Events)
    requires t < |b.path| && j < |b.items| && |b.path| > 1 && b.Priced(j, t) && (t > 0 ==> b.Priced(j, t - 1))
    requires b.items[j].mTicker == s.mTicker && b.items[j].ticker == s.ticker && b.items[j].target == s.target
    requires b.items[j].accruals == Scaled(s.distributions, b.items[j].quantity)
    requires MappedAt(b, t, j, j, e)
    ensures state == ReferenceName(b, j, t) && after == Advance(b, t, j, e)
  {
    var entry, exitDay := t == 0, t == |b.path| - 1;
    var price := b.prices[(s.ticker, b.path[t])];
    var quantity, fee := b.items[j].quantity, 0.0;
    var accrual, keys, balance := 0.0, [], e.receivables[s.mTicker];
    if !entry {
      accrual, keys, balance := ApplyDistributions(s.distributions, quantity, b.path[t], balance);
    }
    var order, position := 0.0, e.positions[s.mTicker];
    if entry {
      order, position, fee := quantity, quantity, b.items[j].entryFee;
    } else if exitDay {
      order, position, fee := -quantity, 0.0, b.items[j].exitFee;
    }
    var pnl := if entry then 0.0 else quantity * (price - b.prices[(s.ticker, b.path[t - 1])]);
    assert price == b.Close(j, t) && order == b.Order(j, t) && position == b.Position(j, t) && fee == b.FeeOn(j, t);
    assert pnl == b.PriceMove(j, t);
    state := NameState(s.mTicker, price, if exitDay then 0.0 else s.target, order, position, -(order * price), accrual,
                       balance, position * price, pnl, fee, pnl + accrual - fee, keys);
    after := Events(e.cash + (-(order * price) - fee), e.fees + fee, e.positions[s.mTicker := position],
                    e.receivables[s.mTicker := balance]);
  }

  /** Once every name is handled, the running cash and fees are the closed forms. */
  lemma EventsDone(b: Book, t: nat, e: Events)
    requires t < |b.path| && EventsAt(b, t, |b.items|, e)
    ensures e.cash == b.Cash(t) && e.fees == SumTo(|b.items|, b.Fees(t))
  {
    var n := |b.items|;
    if t == 0 {
      SumCongruent(n, b.Cashes(0), CashMoves(b, 0));
      SumCongruent(n, b.Fees(0), b.CheckpointFees(0));
    } else {
      SumOfSums(n, b.Cashes(t - 1), CashMoves(b, t), b.Cashes(t));
      SumOfSums(n, b.Fees(t - 1), b.CheckpointFees(t), b.Fees(t));
    }
  }

  lemma EventsNext(b: Book, t: nat, e: Events)
    requires t < |b.path| && EventsAt(b, t, |b.items|, e)
    ensures EventsAt(b, t + 1, 0, e)
  {
    EventsDone(b, t, e);
    var next := t + 1;
    forall i | 0 <= i < |b.items| ensures MappedAt(b, next, 0, i, e) {
      assert MappedAt(b, t, |b.items|, i, e);
    }
  }

  datatype Exposure = Exposure(market: real, balance: real, long: real, short: real, open: int)

  function ExposureTo(b: Book, t: int, n: nat): Exposure {
    Exposure(SumTo(n, b.Markets(t)), SumTo(n, b.Receivables(1, t)), SumTo(n, b.LongByLeg(t)),
             SumTo(n, b.ShortByLeg(t)), OpenCount(b, t, n))
  }

  /** Sums the maps over the names: market value, balances, each leg, and the open positions. */
  method MeasureExposure(b: Book, t: nat, e: Events) returns (x: Exposure)
    requires t < |b.path| && EventsAt(b, t, |b.items|, e)
    requires forall i :: 0 <= i < |b.items| ==> b.Priced(i, t)
    ensures x == ExposureTo(b, t, |b.items|)
  {
    x := Exposure(0.0, 0.0, 0.0, 0.0, 0);
    for j := 0 to |b.items|
      invariant x == ExposureTo(b, t, j)
    {
      assert b.Priced(j, t) && MappedAt(b, t, |b.items|, j, e);
      var position := e.positions[b.items[j].mTicker];
      var value := position * b.prices[(b.items[j].ticker, b.path[t])];
      assert position == b.Position(j, t) && value == b.MarketValue(j, t);
      var long := if b.items[j].leg == Long then value else 0.0;
      var short := if b.items[j].leg == Short then value else 0.0;
      assert long == b.LongByLeg(t)(j) && short == b.ShortByLeg(t)(j);
      x := Exposure(x.market + value, x.balance + e.receivables[b.items[j].mTicker], x.long + long, x.short + short,
                    if position != 0.0 then x.open + 1 else x.open);
    }
  }

  /** The names of one session, each with its events applied in turn. */
  method EventNames(names: seq<Selected>, b: Book, t: nat, e: Events) returns (rows: seq<NameState>, after: Events)
    requires t < |b.path| && 1 < |b.path| && b.DistinctNames() && b.AllPriced() && MatchesNames(names, b)
    requires EventsAt(b, t, 0, e)
    ensures rows == NamesTo(b, t, |b.items|) && EventsAt(b, t, |b.items|, after)
  {
    rows := [];
    after := e;
    var j := 0;
    while j < |names|
      invariant 0 <= j <= |names|
      invariant EventsAt(b, t, j, after) && rows == NamesTo(b, t, j)
    {
      assert b.Priced(j, t) && (t > 0 ==> b.Priced(j, t - 1)) && MappedAt(b, t, j, j, after);
      var state, next := EventName(names[j], b, t, j, after);
      EventsStep(b, t, j, after);
      AppendName(b, t, j);
      rows, after := rows + [state], next;
      j := j + 1;
    }
  }

  /** The cohort row of one session, from the maps the events left behind. */
  method CloseSession(b: Book, t: nat, e: Events, rows: seq<NameState>, previousNav: real)
    returns (session: Session, nav: real)
    requires t < |b.path| && 1 < |b.path| && b.AllPriced()
    requires EventsAt(b, t, |b.items|, e) && rows == NamesTo(b, t, |b.items|) && previousNav == b.Nav(1, t - 1)
    ensures session == Fix(ReferenceSession(b, t)) && nav == b.Nav(1, t)
    ensures session.cohort.cumulativePnl == Money(nav - 1.0)
  {
    EventsDone(b, t, e);
    var x := MeasureExposure(b, t, e);
    nav := e.cash + x.balance + x.market;
    var cohort := CohortState(e.cash, x.balance, x.market, x.long, -x.short, nav, None, e.fees,
                              nav - previousNav, nav - 1.0, x.open);
    assert cohort == ReferenceCohort(b, t);
    session := Fix(Session(b.path[t], cohort, rows));
    // The loop's daily check compares nav - previousNav with the sum of the exact contributions: always equal.
    ContributionsAddUp(b, 1, t);
    assert nav - previousNav == SumTo(|b.items|, NetPnls(b, 1, t));
  }

  predicate MatchesNames(names: seq<Selected>, b: Book) {
    && |names| == |b.items|
    && forall i :: 0 <= i < |names| ==>
         && b.items[i].mTicker == names[i].mTicker && b.items[i].ticker == names[i].ticker
         && b.items[i].target == names[i].target
         && b.items[i].accruals == Scaled(names[i].distributions, b.items[i].quantity)
  }

  method StartEvents(names: seq<Selected>, b: Book) returns (e: Events)
    requires MatchesNames(names, b)
    ensures EventsAt(b, 0, 0, e)
  {
    e := Events(1.0, 0.0, map[], map[]);
    for j := 0 to |names|
      invariant e.cash == 1.0 && e.fees == 0.0
      invariant forall i :: 0 <= i < j ==> MappedAt(b, 0, 0, i, e)
    {
      var before := e;
      e := Events(1.0, 0.0, e.positions[names[j].mTicker := 0.0], e.receivables[names[j].mTicker := 0.0]);
      forall i | 0 <= i <= j ensures MappedAt(b, 0, 0, i, e) {
        assert i < j ==> MappedAt(b, 0, 0, i, before);
        assert b.items[i].mTicker == names[i].mTicker && b.Accrued(i, 1, -1) == 0.0;
      }
    }
  }

  /** The event loop over all sessions: every row it writes is the closed-form book, serialized. */
  method EventLoop(names: seq<Selected>, b: Book) returns (sessions: seq<Session>, terminalPnl: real)
    requires 1 < |b.path| && b.DistinctNames() && b.AllPriced() && MatchesNames(names, b)
    ensures sessions == FixedSessions(b, |b.path|) && terminalPnl == Money(b.Nav(1, b.Last()) - 1.0)
  {
    var e := StartEvents(names, b);
    var previousNav := 1.0;
    sessions, terminalPnl := [], 0.0;
    var t := 0;
    while t < |b.path|
      invariant 0 <= t <= |b.path| && sessions == FixedSessions(b, t)
      invariant t < |b.path| ==> EventsAt(b, t, 0, e)
      invariant previousNav == b.Nav(1, t - 1)
      invariant t > 0 ==> terminalPnl == Money(previousNav - 1.0)
    {
      var rows, after := EventNames(names, b, t, e);
      var session, nav := CloseSession(b, t, after, rows, previousNav);
      EventsNext(b, t, after);
      sessions, e, previousNav := sessions + [session], after, nav;
      terminalPnl := session.cohort.cumulativePnl;
      t := t + 1;
    }
  }

  /** A path's entry agrees with the reference resolution it came from. */
  predicate EntrySourced(s: Selected, path: seq<int>, prices: Prices)
    requires |path| > 0
  {
    Abs(CloseOn(prices, s.ticker, path[0]) - s.entryPrice) <= Tolerance && s.target != 0.0
  }

  function RebuiltReturn(s: Selected, entry: real, exit: real): real
    requires entry != 0.0
  {
    (exit + s.cashTotal) / entry - 1.0
  }

  function RebuiltPnl(s: Selected, item: Item, entry: real, exit: real): real {
    item.quantity * (exit - entry + s.cashTotal) - 2.0 * item.entryFee
  }

  /** So do its exit and the return rebuilt from entry, exit and cash. */
  predicate ExitSourced(s: Selected, path: seq<int>, prices: Prices)
    requires |path| > 0
  {
    var entry, exit := CloseOn(prices, s.ticker, path[0]), CloseOn(prices, s.ticker, path[|path| - 1]);
    && Abs(exit - s.exitPrice) <= Tolerance
    && entry != 0.0 && Abs(RebuiltReturn(s, entry, exit) - s.candidate) <= Tolerance
  }

  predicate PositiveEntries(names: seq<Selected>, b: Book)
    requires |b.path| > 0
  {
    forall i :: 0 <= i < |names| ==> CloseOn(b.prices, names[i].ticker, b.path[0]) > 0.0
  }

  predicate EntriesSourced(names: seq<Selected>, path: seq<int>, prices: Prices)
    requires |path| > 0
  {
    forall i :: 0 <= i < |names| ==> EntrySourced(names[i], path, prices)
  }

  predicate ExitsSourced(names: seq<Selected>, path: seq<int>, prices: Prices)
    requires |path| > 0
  {
    forall i :: 0 <= i < |names| ==> ExitSourced(names[i], path, prices)
  }

  /** P&L of one name rebuilt from its exit, its entry and the resolution's cash total. */
  function Expected(names: seq<Selected>, b: Book): int -> real {
    i => if 0 <= i < |names| && i < |b.items|
         then RebuiltPnl(names[i], b.items[i], b.Close(i, 0), b.Close(i, b.Last()))
         else 0.0
  }

  predicate TerminalHolds(names: seq<Selected>, b: Book) {
    Abs(Money(b.Nav(1, b.Last()) - 1.0) - SumTo(|names|, Expected(names, b))) <= Tolerance
  }

  /** The path runs between two sessions, exactly its horizon apart, and has a bar on each of them. */
  predicate PathSound(s: SelectedPath, sessions: seq<int>, prices: Prices) {
    var start, end := SessionIndex(sessions, s.entryDate), SessionIndex(sessions, s.exitDate);
    && start.Some? && end.Some? && end.value - start.value == s.horizon
    && forall t :: start.value <= t <= end.value ==> (s.name.ticker, sessions[t]) in prices
  }

  function PathOf(s: SelectedPath, sessions: seq<int>, prices: Prices): seq<int>
    requires PathSound(s, sessions, prices)
  {
    var start := SessionIndex(sessions, s.entryDate).value;
    sessions[start..start + s.horizon + 1]
  }

  function NamesOf(rows: seq<SelectedPath>): seq<Selected> {
    seq(|rows|, i requires 0 <= i < |rows| => rows[i].name)
  }

  predicate PathsSound(rows: seq<SelectedPath>, sessions: seq<int>, prices: Prices) {
    forall i :: 0 <= i < |rows| ==> PathSound(rows[i], sessions, prices)
  }

  /** Two exhaustive tails that share one path. */
  predicate CohortSound(rows: seq<SelectedPath>, sessions: seq<int>, prices: Prices) {
    && PathsSound(rows, sessions, prices)
    && rows != [] && rows[0].perLeg > 0 && |rows| == 2 * rows[0].perLeg
    && forall i :: 0 <= i < |rows| ==> PathOf(rows[i], sessions, prices) == PathOf(rows[0], sessions, prices)
  }

  lemma SoundIsPriced(rows: seq<SelectedPath>, sessions: seq<int>, prices: Prices)
    requires CohortSound(rows, sessions, prices) && PositivePrices(prices)
    ensures PathsPriced(NamesOf(rows), PathOf(rows[0], sessions, prices), prices)
  {
    var names, path := NamesOf(rows), PathOf(rows[0], sessions, prices);
    forall i, t | 0 <= i < |names| && 0 <= t < |path|
      ensures (names[i].ticker, path[t]) in prices && prices[(names[i].ticker, path[t])] > 0.0
    {
      assert PathSound(rows[i], sessions, prices) && PathOf(rows[i], sessions, prices)[t] == path[t];
      assert path[t] == sessions[SessionIndex(sessions, rows[i].entryDate).value + t];
    }
  }

  function CohortBook(rows: seq<SelectedPath>, sessions: seq<int>, prices: Prices): (b: Book)
    requires CohortSound(rows, sessions, prices) && PositivePrices(prices)
    ensures b.path == PathOf(rows[0], sessions, prices) && b.prices == prices
  {
    SoundIsPriced(rows, sessions, prices);
    ExactBook(NamesOf(rows), rows[0].perLeg, PathOf(rows[0], sessions, prices), prices)
  }

  /** The first loop: every selected path must be sound. */
  method CheckPaths(rows: seq<SelectedPath>, sessions: seq<int>, prices: Prices) returns (error: Option<Error>)
    ensures error.None? <==> PathsSound(rows, sessions, prices)
  {
    for i := 0 to |rows|
      invariant forall j :: 0 <= j < i ==> PathSound(rows[j], sessions, prices)
    {
      var start, end := SessionIndex(sessions, rows[i].entryDate), SessionIndex(sessions, rows[i].exitDate);
      if start.None? || end.None? {
        return Some(BoundaryMissing);
      }
      if end.value - start.value != rows[i].horizon {
        return Some(WrongHorizon);
      }
      for t := start.value to end.value + 1
        invariant forall u :: start.value <= u < t ==> (rows[i].name.ticker, sessions[u]) in prices
      {
        if (rows[i].name.ticker, sessions[t]) !in prices {
          return Some(MissingBar);
        }
      }
    }
    error := None;
  }

  /** One cohort of the independent ledger, from its selected paths to its rows: accepted exactly when it is two
      tails over one sound path, every entry and exit matches its source, and the terminal P&L matches the
      constituent economics. */
  method BuildDailyStates(rows: seq<SelectedPath>, sessions: seq<int>, prices: Prices) returns (r: Outcome)
    requires PositivePrices(prices) && DistinctSelected(NamesOf(rows))
    requires rows != [] && forall i :: 0 <= i < |rows| ==> rows[i].horizon > 0
    ensures r.Done? <==>
            && CohortSound(rows, sessions, prices)
            && var names, b := NamesOf(rows), CohortBook(rows, sessions, prices);
            && EntriesSourced(names, b.path, prices) && ExitsSourced(names, b.path, prices) && TerminalHolds(names, b)
    ensures r.Done? ==> r.sessions == FixedSessions(CohortBook(rows, sessions, prices), rows[0].horizon + 1)
    ensures r.Done? ==> BookReported(CohortBook(rows, sessions, prices), r.sessions)
  {
    var error := CheckPaths(rows, sessions, prices);
    if error.Some? {
      return Failed(error.value);
    }
    var k := rows[0].perLeg;
    if k <= 0 || |rows| != 2 * k {
      return Failed(NotTwoTails);
    }
    var path := PathOf(rows[0], sessions, prices);
    for i := 0 to |rows|
      invariant forall j :: 0 <= j < i ==> PathOf(rows[j], sessions, prices) == path
    {
      if PathOf(rows[i], sessions, prices) != path {
        return Failed(PathsDiffer);
      }
    }
    SoundIsPriced(rows, sessions, prices);
    r := ReplayCohort(NamesOf(rows), k, path, prices);
    BookIsReported(CohortBook(rows, sessions, prices));
  }

  method ReplayCohort(names: seq<Selected>, k: int, path: seq<int>, prices: Prices) returns (r: Outcome)
    requires k > 0 && 1 < |path| && PathsPriced(names, path, prices) && DistinctSelected(names)
    ensures r.Done? <==>
            && EntriesSourced(names, path, prices)
            && ExitsSourced(names, path, prices)
            && TerminalHolds(names, ExactBook(names, k, path, prices))
    ensures r.Done? ==> r.sessions == FixedSessions(ExactBook(names, k, path, prices), |path|)
  {
    var b := ExactBook(names, k, path, prices);
    var unsourced := CheckEntries(names, path, prices);
    if unsourced.Some? {
      return Failed(unsourced.value);
    }
    BookIsPriced(names, k, path, prices);
    r := ReplayPaths(names, b);
  }

  method ReplayPaths(names: seq<Selected>, b: Book) returns (r: Outcome)
    requires 1 < |b.path| && b.DistinctNames() && b.AllPriced() && MatchesNames(names, b)
    requires PositiveEntries(names, b)
    ensures r.Done? <==> ExitsSourced(names, b.path, b.prices) && TerminalHolds(names, b)
    ensures r.Done? ==> r.sessions == FixedSessions(b, |b.path|)
  {
    var sessions, terminalPnl := EventLoop(names, b);
    var error := CheckExits(names, b, terminalPnl);
    r := if error.Some? then Failed(error.value) else Done(sessions);
  }

  method CheckEntries(names: seq<Selected>, path: seq<int>, prices: Prices) returns (error: Option<Error>)
    requires |path| > 0
    ensures error.None? <==> EntriesSourced(names, path, prices)
  {
    for i := 0 to |names|
      invariant forall j :: 0 <= j < i ==> EntrySourced(names[j], path, prices)
    {
      if Abs(CloseOn(prices, names[i].ticker, path[0]) - names[i].entryPrice) > Tolerance {
        return Some(EntryPriceDiffers);
      }
      if names[i].target == 0.0 {
        return Some(NoTarget);
      }
    }
    error := None;
  }

  /** Rebuilds every name's P&L from its source, checks exit price and return on the way, then the total. */
  method CheckExits(names: seq<Selected>, b: Book, pnl: real) returns (error: Option<Error>)
    requires 1 < |b.path| && MatchesNames(names, b) && b.AllPriced() && PositiveEntries(names, b)
    ensures error.None? <==>
            ExitsSourced(names, b.path, b.prices) && Abs(pnl - SumTo(|names|, Expected(names, b))) <= Tolerance
  {
    var expected := 0.0;
    for i := 0 to |names|
      invariant forall j :: 0 <= j < i ==> ExitSourced(names[j], b.path, b.prices)
      invariant expected == SumTo(i, Expected(names, b))
    {
      var last := |b.path| - 1;
      assert b.Priced(i, 0) && b.Priced(i, last);
      var entry, exit := CloseOn(b.prices, names[i].ticker, b.path[0]),
          CloseOn(b.prices, names[i].ticker, b.path[last]);
      assert exit == b.Close(i, last) && entry == b.Close(i, 0);
      if Abs(exit - names[i].exitPrice) > Tolerance {
        assert !ExitSourced(names[i], b.path, b.prices);
        return Some(ExitPriceDiffers);
      }
      if Abs(RebuiltReturn(names[i], entry, exit) - names[i].candidate) > Tolerance {
        assert !ExitSourced(names[i], b.path, b.prices);
        return Some(ReturnDiffers);
      }
      expected := expected + RebuiltPnl(names[i], b.items[i], entry, exit);
    }
    error := if Abs(pnl - expected) > Tolerance then Some(TerminalDiffers) else None;
  }

  lemma BookIsPriced(names: seq<Selected>, k: int, path: seq<int>, prices: Prices)
    requires k > 0 && |path| > 0 && PathsPriced(names, path, prices) && DistinctSelected(names)
    ensures var b := ExactBook(names, k, path, prices);
            b.AllPriced() && b.DistinctNames() && MatchesNames(names, b) && PositiveEntries(names, b)
  {
  }
}
