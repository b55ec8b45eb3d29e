/** From announcements to formation records: what each date could have known. */
module Signals {
  import opened Optional
  import opened Ordering
  import opened Grouping

  /** A matched event; `key` stands for its canonical key. Days are counted, instants are in UTC. */
  datatype Event = Event(key: string, ticker: string, announced: int, reportDay: int, error: real)

  /** One bar of a price series, in index order. */
  datatype Bar = Bar(day: int, price: Option<real>)

  /** One price by day; a price that is no number is nothing. */
  type Panel = map<string, map<int, Option<real>>>

  /** The market: sessions, their closing instants, each ticker's split-normalized bars, its unadjusted and adjusted
      closes, its market capitalisation, and who belongs to the universe on a day. */
  datatype Market = Market(
    sessions: seq<int>, close: map<int, int>, bars: map<string, seq<Bar>>, unadjusted: Panel, adjusted: Panel,
    caps: Panel, members: map<int, set<string>>)

  datatype Prepared = Prepared(event: Event, priceDay: int, preclose: real, execution: real, signal: real)

  datatype Reason = NoPrecedingClose | NoExecutionEvidence | BadExecutionEvidence

  datatype Preparation = Ready(prepared: Prepared) | Left(reason: Reason)

  function BarsOf(m: Market, ticker: string): seq<Bar> { if ticker in m.bars then m.bars[ticker] else [] }

  function PricesOf(panel: Panel, ticker: string): map<int, Option<real>> {
    if ticker in panel then panel[ticker] else map[]
  }

  predicate Precedes(m: Market, b: Bar, announced: int) {
    b.day in m.close && m.close[b.day] < announced && b.price.Some? && b.price.value > 0.0
  }

  function Preceding(m: Market, announced: int): Bar -> bool { (b: Bar) => Precedes(m, b, announced) }

  function BarsBefore(m: Market, e: Event): seq<Bar> { Filter(BarsOf(m, e.ticker), Preceding(m, e.announced)) }

  /** The signal of one event: its forecast error over the last positive close before the announcement. */
  function Prepare(m: Market, e: Event): Preparation {
    var before := BarsBefore(m, e);
    if before == [] then Left(NoPrecedingClose)
    else
      var last := before[|before| - 1];
      FilterKeeps(BarsOf(m, e.ticker), Preceding(m, e.announced), last);
      var unadjusted := PricesOf(m.unadjusted, e.ticker);
      if last.day !in unadjusted then Left(NoExecutionEvidence)
      else match unadjusted[last.day]
        case Some(x) =>
          if x > 0.0 then Ready(Prepared(e, last.day, last.price.value, x, e.error / last.price.value))
          else Left(BadExecutionEvidence)
        case None => Left(BadExecutionEvidence)
  }

  /** The prepared events of one ticker, in the order the events came. */
  function PreparedOf(m: Market, events: seq<Event>, ticker: string): seq<Prepared> {
    if events == [] then []
    else
      var last, rest := events[|events| - 1], PreparedOf(m, events[..|events| - 1], ticker);
      rest + if last.ticker == ticker && Prepare(m, last).Ready? then [Prepare(m, last).prepared] else []
  }

  predicate TimeLe(a: Prepared, b: Prepared) { a.event.announced <= b.event.announced }

  predicate Visible(p: Prepared, formation: int, cutoff: int, freshDays: int) {
    p.event.announced < cutoff && 0 <= formation - p.event.reportDay <= freshDays
  }

  function VisibleAt(formation: int, cutoff: int, freshDays: int): Prepared -> bool {
    (p: Prepared) => Visible(p, formation, cutoff, freshDays)
  }

  function LastOf<T>(s: seq<T>): Option<T> { if s == [] then None else Some(s[|s| - 1]) }

  /** The signal a formation uses for one ticker: the last of the visible events in announcement order. */
  function SignalAt(prepared: seq<Prepared>, formation: int, cutoff: int, freshDays: int): Option<Prepared> {
    LastOf(Filter(Sort(prepared, TimeLe), VisibleAt(formation, cutoff, freshDays)))
  }

  // ----- the records -----

  /** One record: a formation, the session after it, the signal, the entry prices and market capitalisation, and the
      exit session of each horizon. */
  datatype Record = Record(formation: int, entry: int, ticker: string, signal: Prepared, split: real, execution: real,
                           adjusted: real, cap: real, exits: seq<Option<int>>)

  datatype Problem =
    | MissingSplitEntry | BadSplitEntry | MissingExecutionEntry | BadExecutionEntry | MissingAdjustedEntry
    | BadAdjustedEntry | MissingMarketCap

  /** What a formation makes of a ticker: nothing, an exclusion with its reason, or a record. */
  datatype Formed = Silent | Excluded(problem: Problem) | Emitted(record: Record)

  datatype Quote = Absent | Unusable | Usable(price: real)

  function Usably(price: Option<real>): Quote {
    match price case Some(x) => if x > 0.0 then Usable(x) else Unusable case None => Unusable
  }

  function QuoteOn(prices: map<int, Option<real>>, day: int): Quote {
    if day in prices then Usably(prices[day]) else Absent
  }

  /** The day's bar, looked up by date. */
  function BarOn(bars: seq<Bar>, day: int): Quote {
    if bars == [] then Absent
    else if bars[|bars| - 1].day == day then Usably(bars[|bars| - 1].price)
    else BarOn(bars[..|bars| - 1], day)
  }

  /** The three entry prices and the market capitalisation, or the first of them that cannot be used. */
  function EntryProblem(split: Quote, execution: Quote, adjusted: Quote, cap: Quote): Option<Problem> {
    if split.Absent? then Some(MissingSplitEntry)
    else if split.Unusable? then Some(BadSplitEntry)
    else if execution.Absent? then Some(MissingExecutionEntry)
    else if execution.Unusable? then Some(BadExecutionEntry)
    else if adjusted.Absent? then Some(MissingAdjustedEntry)
    else if adjusted.Unusable? then Some(BadAdjustedEntry)
    else if !cap.Usable? then Some(MissingMarketCap) else None
  }

  function ExitAt(sessions: seq<int>, position: nat, horizon: nat): Option<int> {
    if position + horizon < |sessions| then Some(sessions[position + horizon]) else None
  }

  function Exits(sessions: seq<int>, position: nat, horizons: seq<nat>): (r: seq<Option<int>>)
    ensures |r| == |horizons| && forall i | 0 <= i < |horizons| :: r[i] == ExitAt(sessions, position, horizons[i])
  {
    seq(|horizons|, i requires 0 <= i < |horizons| => ExitAt(sessions, position, horizons[i]))
  }

  predicate IsMember(m: Market, formation: int, ticker: string) {
    formation in m.members && ticker in m.members[formation]
  }

  /** A member with a signal is recorded when its entry can be priced. */
  function Form(m: Market, signal: Prepared, position: nat, ticker: string, horizons: seq<nat>): Formed
    requires position + 1 < |m.sessions|
  {
    var formation, entry := m.sessions[position], m.sessions[position + 1];
    var split, execution := BarOn(BarsOf(m, ticker), entry), QuoteOn(PricesOf(m.unadjusted, ticker), entry);
    var adjusted, cap := QuoteOn(PricesOf(m.adjusted, ticker), entry), QuoteOn(PricesOf(m.caps, ticker), formation);
    match EntryProblem(split, execution, adjusted, cap)
    case Some(problem) => Excluded(problem)
    case None =>
      Emitted(Record(formation, entry, ticker, signal, split.price, execution.price, adjusted.price, cap.price,
                     Exits(m.sessions, position + 1, horizons)))
  }

  /** A formation is a position in the sessions; its entry is the next session. */
  function RecordAt(m: Market, events: seq<Event>, position: nat, ticker: string, horizons: seq<nat>,
                    freshDays: int): Formed
    requires position + 1 < |m.sessions| && m.sessions[position] in m.close
  {
    var formation := m.sessions[position];
    if !IsMember(m, formation, ticker) then Silent
    else match SignalAt(PreparedOf(m, events, ticker), formation, m.close[formation], freshDays)
      case None => Silent
      case Some(signal) => Form(m, signal, position, ticker, horizons)
  }

  /** Events prepared and sorted, then the last visible one picked, as both signal loops do. */
  method CollectRecord(m: Market, events: seq<Event>, position: nat, ticker: string, horizons: seq<nat>, freshDays: int)
    returns (r: Formed)
    requires position + 1 < |m.sessions| && m.sessions[position] in m.close
    ensures r == RecordAt(m, events, position, ticker, horizons, freshDays)
  {
    var formation := m.sessions[position];
    if !IsMember(m, formation, ticker) { return Silent; }
    var prepared: seq<Prepared> := [];
    for n := 0 to |events|
      invariant prepared == PreparedOf(m, events[..n], ticker)
    {
      assert events[..n + 1][..n] == events[..n];
      if events[n].ticker == ticker {
        var p := Prepare(m, events[n]);
        if p.Ready? { prepared := prepared + [p.prepared]; }
      }
    }
    assert events[..|events|] == events;
    var ordered := Sort(prepared, TimeLe);
    var cutoff := m.close[formation];
    var visible: seq<Prepared> := [];
    for n := 0 to |ordered|
      invariant visible == Filter(ordered[..n], VisibleAt(formation, cutoff, freshDays))
    {
      FilterNext(ordered, n, VisibleAt(formation, cutoff, freshDays));
      var age := formation - ordered[n].event.reportDay;
      if ordered[n].event.announced < cutoff && 0 <= age <= freshDays { visible := visible + [ordered[n]]; }
    }
    assert ordered[..|ordered|] == ordered;
    if visible == [] { return Silent; }
    r := FormRecord(m, visible[|visible| - 1], position, ticker, horizons);
  }

  method FormRecord(m: Market, signal: Prepared, position: nat, ticker: string, horizons: seq<nat>) returns (r: Formed)
    requires position + 1 < |m.sessions|
    ensures r == Form(m, signal, position, ticker, horizons)
  {
    var formation, entry := m.sessions[position], m.sessions[position + 1];
    var split := BarOn(BarsOf(m, ticker), entry);
    if split.Absent? { return Excluded(MissingSplitEntry); }
    if split.Unusable? { return Excluded(BadSplitEntry); }
    var execution := QuoteOn(PricesOf(m.unadjusted, ticker), entry);
    if execution.Absent? { return Excluded(MissingExecutionEntry); }
    if execution.Unusable? { return Excluded(BadExecutionEntry); }
    var adjusted := QuoteOn(PricesOf(m.adjusted, ticker), entry);
    if adjusted.Absent? { return Excluded(MissingAdjustedEntry); }
    if adjusted.Unusable? { return Excluded(BadAdjustedEntry); }
    var cap := QuoteOn(PricesOf(m.caps, ticker), formation);
    if !cap.Usable? { return Excluded(MissingMarketCap); }
    var exits: seq<Option<int>> := [];
    for i := 0 to |horizons|
      invariant |exits| == i && forall j | 0 <= j < i :: exits[j] == ExitAt(m.sessions, position + 1, horizons[j])
    {
      var target := position + 1 + horizons[i];
      exits := exits + [if target < |m.sessions| then Some(m.sessions[target]) else None];
    }
    assert exits == Exits(m.sessions, position + 1, horizons);
    return Emitted(Record(formation, entry, ticker, signal, split.price, execution.price, adjusted.price, cap.price,
                          exits));
  }

  // ----- the closes -----

  const DAY := 86_400
  const EARLY_CLOSE := 46_800
  const CLOSE := 57_600

  predicate Ascending(days: seq<int>) { forall i, j | 0 <= i < j < |days| :: days[i] < days[j] }

  /** Eastern time is four or five hours behind UTC, and was never outside that range. */
  ghost predicate Eastern(offset: int -> int) { forall day :: 4 * 3_600 <= offset(day) <= 5 * 3_600 }

  /** 16:00 Eastern, or 13:00 on an early-close day, in seconds of UTC. */
  function CloseAt(day: int, early: set<int>, offset: int -> int): int {
    DAY * day + (if day in early then EARLY_CLOSE else CLOSE) + offset(day)
  }

  /** On the Eastern clock the instant is 13:00 of the day, or 16:00, on the hour. */
  predicate OnTheClock(local: int, day: int, early: bool) {
    local / 86_400 == day && local % 86_400 == (if early then 13 else 16) * 3_600
  }

  function Schedule(sessions: seq<int>, early: set<int>, offset: int -> int): map<int, int> {
    map day | day in sessions :: CloseAt(day, early, offset)
  }

  /** Sessions that ascend inside the window, and every early close of the window among them. */
  predicate Schedulable(sessions: seq<int>, early: set<int>, first: int, last: int) {
    && Ascending(sessions) && (forall i | 0 <= i < |sessions| :: first <= sessions[i] <= last)
    && forall day | day in early && first <= day <= last :: day in sessions
  }

  /** `_session_close_schedule`: the closes of the observed sessions, or a refusal. */
  method SessionCloseSchedule(sessions: seq<int>, early: set<int>, first: int, last: int, offset: int -> int)
    returns (r: Option<map<int, int>>)
    ensures r.Some? <==> Schedulable(sessions, early, first, last)
    ensures r.Some? ==> r.value == Schedule(sessions, early, offset)
    ensures r.Some? ==> forall day :: day in r.value <==> day in sessions
    ensures r.Some? ==> forall day | day in sessions :: OnTheClock(r.value[day] - offset(day), day, day in early)
  {
    var ascending := CheckAscending(sessions);
    if !ascending { return None; }
    for i := 0 to |sessions|
      invariant forall j | 0 <= j < i :: first <= sessions[j] <= last
    {
      if !(first <= sessions[i] <= last) { return None; }
    }
    var missing := set day | day in early && first <= day <= last && day !in sessions;
    if missing != {} {
      ghost var day :| day in missing;
      assert day in early && day !in sessions;
      return None;
    }
    assert forall day | day in early && first <= day <= last :: day in sessions by {
      forall day | day in early && first <= day <= last ensures day in sessions { assert day !in missing; }
    }
    var closes := CloseAll(sessions, early, offset);
    return Some(closes);
  }

  method CheckAscending(sessions: seq<int>) returns (ascending: bool)
    ensures ascending <==> Ascending(sessions)
  {
    for i := 0 to |sessions|
      invariant Ascending(sessions[..i])
    {
      if i > 0 && sessions[i - 1] >= sessions[i] { return false; }
      assert sessions[..i + 1] == sessions[..i] + [sessions[i]];
      assert i > 0 ==> sessions[..i][i - 1] == sessions[i - 1];
    }
    assert sessions[..|sessions|] == sessions;
    ascending := true;
  }

  method CloseAll(sessions: seq<int>, early: set<int>, offset: int -> int) returns (closes: map<int, int>)
    ensures closes == Schedule(sessions, early, offset)
  {
    closes := map[];
    for i := 0 to |sessions|
      invariant closes == Schedule(sessions[..i], early, offset)
    {
      assert sessions[..i + 1] == sessions[..i] + [sessions[i]];
      closes := closes[sessions[i] := CloseAt(sessions[i], early, offset)];
    }
    assert sessions[..|sessions|] == sessions;
  }

  /** The market's closes come from that schedule, drawn up over the sessions from an earlier start. */
  ghost predicate Scheduled(m: Market, wide: seq<int>, early: set<int>, first: int, last: int, offset: int -> int) {
    && Schedulable(wide, early, first, last) && Eastern(offset) && m.close == Schedule(wide, early, offset)
    && |m.sessions| <= |wide| && m.sessions == wide[|wide| - |m.sessions|..]
  }

  /** However early one day closes and however late another, a later session closes later. */
  lemma ScheduleIsChronological(m: Market, wide: seq<int>, early: set<int>, first: int, last: int, offset: int -> int)
    requires Scheduled(m, wide, early, first, last, offset)
    ensures Chronological(m)
  {
    var from := |wide| - |m.sessions|;
    forall i, j | 0 <= i < j < |m.sessions|
      ensures m.sessions[i] < m.sessions[j] && m.sessions[i] in m.close && m.sessions[j] in m.close
      ensures m.close[m.sessions[i]] < m.close[m.sessions[j]]
    {
      assert m.sessions[i] == wide[from + i] && m.sessions[j] == wide[from + j];
      var a, b := m.sessions[i], m.sessions[j];
      assert a + 1 <= b && offset(a) <= 5 * 3_600 && 4 * 3_600 <= offset(b);
    }
    forall i | 0 <= i < |m.sessions| ensures m.sessions[i] in m.close { assert m.sessions[i] == wide[from + i]; }
  }

  // ----- chronology -----

  /** Every session has a close, sessions ascend, and a later session closes later. */
  predicate Chronological(m: Market) {
    && (forall i | 0 <= i < |m.sessions| :: m.sessions[i] in m.close)
    && forall i, j | 0 <= i < j < |m.sessions| ::
         m.sessions[i] < m.sessions[j] && m.close[m.sessions[i]] < m.close[m.sessions[j]]
  }

  lemma {:induction false} PreparedCameFrom(m: Market, events: seq<Event>, ticker: string, i: nat)
    requires i < |PreparedOf(m, events, ticker)|
    ensures var p := PreparedOf(m, events, ticker)[i];
      p.event in events && p.event.ticker == ticker && Prepare(m, p.event) == Ready(p)
  {
    var front := events[..|events| - 1];
    if i < |PreparedOf(m, front, ticker)| { PreparedCameFrom(m, front, ticker, i); }
  }

  /** A prepared event's price is from a session that closed before the announcement, and no later such session
      had a positive close. */
  lemma PriceIsBefore(m: Market, e: Event)
    requires Prepare(m, e).Ready?
    ensures var p := Prepare(m, e).prepared;
      && p.priceDay in m.close && m.close[p.priceDay] < e.announced && p.preclose > 0.0 && p.execution > 0.0
      && BarsBefore(m, e) != [] && BarsBefore(m, e)[|BarsBefore(m, e)| - 1] == Bar(p.priceDay, Some(p.preclose))
      && p.signal * p.preclose == e.error
  {
    var before := BarsBefore(m, e);
    var last := before[|before| - 1];
    FilterKeeps(BarsOf(m, e.ticker), Preceding(m, e.announced), last);
  }

  lemma SignalCameFrom(prepared: seq<Prepared>, formation: int, cutoff: int, freshDays: int)
    requires SignalAt(prepared, formation, cutoff, freshDays).Some?
    ensures var p := SignalAt(prepared, formation, cutoff, freshDays).value;
      p in prepared && Visible(p, formation, cutoff, freshDays)
  {
    assert Preorder(TimeLe);
    var p := SignalAt(prepared, formation, cutoff, freshDays).value;
    FilterKeeps(Sort(prepared, TimeLe), VisibleAt(formation, cutoff, freshDays), p);
    SortMembers(prepared, TimeLe, p);
  }

  /** Every record's story runs forward: the price the signal is scaled by, its announcement, the formation close and
      the entry session come in that order, and each exit is exactly its horizon after the entry. */
  lemma RecordsAreChronological(m: Market, wide: seq<int>, early: set<int>, first: int, last: int, offset: int -> int,
                                events: seq<Event>, position: nat, ticker: string, horizons: seq<nat>, freshDays: int)
    requires Scheduled(m, wide, early, first, last, offset) && position + 1 < |m.sessions|
    ensures m.sessions[position] in m.close && m.sessions[position + 1] in m.close
    ensures var formed := RecordAt(m, events, position, ticker, horizons, freshDays);
      formed.Emitted? ==> RunsForward(m, events, position, ticker, horizons, formed.record)
  {
    ScheduleIsChronological(m, wide, early, first, last, offset);
    var formed := RecordAt(m, events, position, ticker, horizons, freshDays);
    if formed.Emitted? { RecordRunsForward(m, events, position, ticker, horizons, freshDays); }
  }

  predicate RunsForward(m: Market, events: seq<Event>, position: nat, ticker: string, horizons: seq<nat>, r: Record)
    requires position + 1 < |m.sessions| && m.sessions[position] in m.close && m.sessions[position + 1] in m.close
  {
    && r.formation == m.sessions[position] && r.entry == m.sessions[position + 1]
    && r.signal.event in events && r.signal.event.ticker == r.ticker == ticker
    && r.signal.priceDay in m.close
    && m.close[r.signal.priceDay] < r.signal.event.announced < m.close[r.formation] < m.close[r.entry]
    && |r.exits| == |horizons|
    && forall i | 0 <= i < |horizons| && r.exits[i].Some? ::
         position + 1 + horizons[i] < |m.sessions| && r.exits[i].value == m.sessions[position + 1 + horizons[i]]
         && r.entry <= r.exits[i].value
  }

  lemma RecordRunsForward(m: Market, events: seq<Event>, position: nat, ticker: string, horizons: seq<nat>,
                          freshDays: int)
    requires Chronological(m) && position + 1 < |m.sessions|
    requires RecordAt(m, events, position, ticker, horizons, freshDays).Emitted?
    ensures RunsForward(m, events, position, ticker, horizons,
                        RecordAt(m, events, position, ticker, horizons, freshDays).record)
  {
    var formation := m.sessions[position];
    var prepared := PreparedOf(m, events, ticker);
    var p := SignalAt(prepared, formation, m.close[formation], freshDays).value;
    SignalCameFrom(prepared, formation, m.close[formation], freshDays);
    var i :| 0 <= i < |prepared| && prepared[i] == p;
    PreparedCameFrom(m, events, ticker, i);
    PriceIsBefore(m, p.event);
    assert m.sessions[position] < m.sessions[position + 1];
  }

  // ----- no interference from later events -----

  function Before(cutoff: int): Prepared -> bool { (p: Prepared) => p.event.announced < cutoff }

  function KnownBefore(cutoff: int): Event -> bool { (e: Event) => e.announced < cutoff }

  /** Preparing and then dropping what was announced too late is the same as dropping it first. */
  lemma {:induction false} PreparedBefore(m: Market, events: seq<Event>, ticker: string, cutoff: int)
    ensures Filter(PreparedOf(m, events, ticker), Before(cutoff))
        == PreparedOf(m, Filter(events, KnownBefore(cutoff)), ticker)
  {
    if events != [] {
      var front, last := events[..|events| - 1], events[|events| - 1];
      PreparedBefore(m, front, ticker, cutoff);
      var kept := Filter(front, KnownBefore(cutoff));
      if last.ticker == ticker && Prepare(m, last).Ready? {
        var before := PreparedOf(m, front, ticker);
        var p := Prepare(m, last).prepared;
        assert p.event == last;
        assert (before + [p])[..|before|] == before;
        assert PreparedOf(m, events, ticker) == before + [p];
      } else {
        assert PreparedOf(m, events, ticker) == PreparedOf(m, front, ticker);
      }
      if KnownBefore(cutoff)(last) {
        assert (kept + [last])[..|kept|] == kept;
        assert Filter(events, KnownBefore(cutoff)) == kept + [last];
      } else {
        assert Filter(events, KnownBefore(cutoff)) == kept;
      }
    }
  }

  lemma SignalOfBefore(prepared: seq<Prepared>, formation: int, cutoff: int, freshDays: int)
    ensures SignalAt(prepared, formation, cutoff, freshDays)
        == SignalAt(Filter(prepared, Before(cutoff)), formation, cutoff, freshDays)
  {
    assert Preorder(TimeLe);
    FilterOfSort(prepared, Before(cutoff), TimeLe);
    FilterTwice(Sort(prepared, TimeLe), Before(cutoff), VisibleAt(formation, cutoff, freshDays),
                VisibleAt(formation, cutoff, freshDays));
  }

  /** Two lists of events that agree on what was announced before the formation close give the same record: nothing
      announced at or after that close can change an emitted signal. */
  lemma LaterEventsDoNotInterfere(m: Market, a: seq<Event>, b: seq<Event>, position: nat, ticker: string,
                                  horizons: seq<nat>, freshDays: int)
    requires position + 1 < |m.sessions| && m.sessions[position] in m.close
    requires Filter(a, KnownBefore(m.close[m.sessions[position]]))
        == Filter(b, KnownBefore(m.close[m.sessions[position]]))
    ensures RecordAt(m, a, position, ticker, horizons, freshDays)
        == RecordAt(m, b, position, ticker, horizons, freshDays)
  {
    var formation := m.sessions[position];
    var cutoff := m.close[formation];
    PreparedBefore(m, a, ticker, cutoff);
    PreparedBefore(m, b, ticker, cutoff);
    SignalOfBefore(PreparedOf(m, a, ticker), formation, cutoff, freshDays);
    SignalOfBefore(PreparedOf(m, b, ticker), formation, cutoff, freshDays);
  }

  // ----- the two sorts -----

  predicate TimeKeyLe(keyLe: (string, string) -> bool, a: Prepared, b: Prepared) {
    a.event.announced < b.event.announced || (a.event.announced == b.event.announced && keyLe(a.event.key, b.event.key))
  }

  function ByTimeAndKey(keyLe: (string, string) -> bool): (Prepared, Prepared) -> bool {
    (a: Prepared, b: Prepared) => TimeKeyLe(keyLe, a, b)
  }

  /** The events come in the order of their keys. */
  ghost predicate KeyOrdered(events: seq<Event>, keyLe: (string, string) -> bool) {
    forall i, j | 0 <= i < j < |events| :: keyLe(events[i].key, events[j].key)
  }

  lemma {:induction false} PreparedKeepsKeyOrder(m: Market, events: seq<Event>, ticker: string,
                                                 keyLe: (string, string) -> bool, i: nat, j: nat)
    requires KeyOrdered(events, keyLe) && i < j < |PreparedOf(m, events, ticker)|
    ensures keyLe(PreparedOf(m, events, ticker)[i].event.key, PreparedOf(m, events, ticker)[j].event.key)
  {
    var front := events[..|events| - 1];
    if j < |PreparedOf(m, front, ticker)| {
      PreparedKeepsKeyOrder(m, front, ticker, keyLe, i, j);
    } else {
      PreparedCameFrom(m, front, ticker, i);
      var x :| 0 <= x < |front| && front[x] == PreparedOf(m, front, ticker)[i].event;
      assert events[x] == front[x];
    }
  }

  /** The first implementation's stable sort by time and the second's sort by time and key give the same list, because
      the events reach both in key order. */
  lemma SortsAgree(m: Market, events: seq<Event>, ticker: string, keyLe: (string, string) -> bool)
    requires KeyOrdered(events, keyLe)
    ensures Sort(PreparedOf(m, events, ticker), TimeLe) == Sort(PreparedOf(m, events, ticker), ByTimeAndKey(keyLe))
  {
    var prepared := PreparedOf(m, events, ticker);
    assert Preorder(TimeLe);
    forall i, j | 0 <= i < j < |prepared|
      ensures TimeLe(prepared[i], prepared[j]) == ByTimeAndKey(keyLe)(prepared[i], prepared[j])
    {
      PreparedKeepsKeyOrder(m, events, ticker, keyLe, i, j);
    }
    SortAgrees(prepared, TimeLe, ByTimeAndKey(keyLe));
  }

  /** That list is in the order of the announcements, events of one instant in the order of their keys. */
  lemma {:induction false} SortedByTimeAndKey(prepared: seq<Prepared>, keyLe: (string, string) -> bool)
    requires TotalOrder(keyLe)
    ensures var s := Sort(prepared, ByTimeAndKey(keyLe));
      && multiset(s) == multiset(prepared)
      && forall i, j | 0 <= i < j < |s| ::
           && s[i].event.announced <= s[j].event.announced
           && (s[i].event.announced == s[j].event.announced ==> keyLe(s[i].event.key, s[j].event.key))
  {
    var le := ByTimeAndKey(keyLe);
    assert Preorder(le);
    SortSorts(prepared, le);
    var s := Sort(prepared, le);
    forall i, j | 0 <= i < j < |s|
      ensures s[i].event.announced <= s[j].event.announced
      ensures s[i].event.announced == s[j].event.announced ==> keyLe(s[i].event.key, s[j].event.key)
    {
      assert le(s[i], s[j]);
    }
  }
}
