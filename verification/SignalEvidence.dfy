/** What a formation record rests on, told in the events and prices themselves: which event it uses, which close scales
    it, which prices enter it, and why a ticker was passed over. */
module SignalEvidence {
  import opened Optional
  import opened Ordering
  import opened Grouping
  import opened Signals

  // ----- the close that scales an event -----

  predicate Positive(price: Option<real>) { price.Some? && price.value > 0.0 }

  predicate ClosedBefore(m: Market, b: Bar, announced: int) {
    b.day in m.close && m.close[b.day] < announced && Positive(b.price)
  }

  /** Bar b is the last one with a positive price whose session closed before the instant. */
  predicate LastClose(m: Market, bars: seq<Bar>, announced: int, b: int) {
    && 0 <= b < |bars| && ClosedBefore(m, bars[b], announced)
    && forall c | b < c < |bars| :: !ClosedBefore(m, bars[c], announced)
  }

  predicate Listed(panel: Panel, ticker: string, day: int) { ticker in panel && day in panel[ticker] }

  predicate Quoted(panel: Panel, ticker: string, day: int) {
    Listed(panel, ticker, day) && Positive(panel[ticker][day])
  }

  /** The event can be scaled: there is such a close, and an unadjusted price of the same day. */
  predicate Scalable(m: Market, e: Event) {
    && e.ticker in m.bars
    && exists b | 0 <= b < |m.bars[e.ticker]| ::
         LastClose(m, m.bars[e.ticker], e.announced, b) && Quoted(m.unadjusted, e.ticker, m.bars[e.ticker][b].day)
  }

  /** And is scaled by it: the error over that price. */
  predicate ScaledBy(m: Market, e: Event, p: Prepared, b: int) {
    && e.ticker in m.bars && LastClose(m, m.bars[e.ticker], e.announced, b)
    && p.event == e && m.bars[e.ticker][b] == Bar(p.priceDay, Some(p.preclose))
    && Quoted(m.unadjusted, e.ticker, p.priceDay) && m.unadjusted[e.ticker][p.priceDay] == Some(p.execution)
    && p.signal * p.preclose == e.error
  }

  predicate Scaled(m: Market, e: Event, p: Prepared) {
    e.ticker in m.bars && exists b | 0 <= b < |m.bars[e.ticker]| :: ScaledBy(m, e, p, b)
  }

  lemma PrepareTells(m: Market, e: Event)
    ensures Prepare(m, e).Ready? <==> Scalable(m, e)
    ensures Prepare(m, e).Ready? ==> Scaled(m, e, Prepare(m, e).prepared)
  {
    var bars, before := BarsOf(m, e.ticker), BarsBefore(m, e);
    if before == [] {
      forall b | 0 <= b < |bars| ensures !ClosedBefore(m, bars[b], e.announced) {
        FilterKeeps(bars, Preceding(m, e.announced), bars[b]);
      }
    } else {
      var b := LastKept(bars, Preceding(m, e.announced));
      assert LastClose(m, bars, e.announced, b);
      if Prepare(m, e).Ready? {
        PriceIsBefore(m, e);
        assert ScaledBy(m, e, Prepare(m, e).prepared, b);
      }
    }
  }

  // ----- the event a formation uses -----

  /** A prepared event of the ticker, reported at most so many days ago and announced before the formation close. */
  predicate Known(m: Market, e: Event, ticker: string, formation: int, cutoff: int, freshDays: int) {
    e.ticker == ticker && Scalable(m, e) && 0 <= formation - e.reportDay <= freshDays && e.announced < cutoff
  }

  /** Of the events known at a formation, event i is the one announced last; of several at that instant, the last
      given. */
  predicate Newest(m: Market, events: seq<Event>, ticker: string, formation: int, cutoff: int, freshDays: int, i: int) {
    && 0 <= i < |events| && Known(m, events[i], ticker, formation, cutoff, freshDays)
    && forall j | 0 <= j < |events| && Known(m, events[j], ticker, formation, cutoff, freshDays) ::
         events[j].announced < events[i].announced || (events[j].announced == events[i].announced && j <= i)
  }

  /** Where the last of a stably sorted list stood: nothing follows it, and nothing level with it came after. */
  predicate StoodLast<T>(s: seq<T>, le: (T, T) -> bool, k: int) {
    0 <= k < |s| && forall j | 0 <= j < |s| :: le(s[j], s[k]) && (le(s[k], s[j]) ==> j <= k)
  }

  lemma {:induction false} SortedLast<T(!new)>(s: seq<T>, le: (T, T) -> bool) returns (k: nat)
    requires Preorder(le) && s != []
    ensures |Sort(s, le)| == |s| && StoodLast(s, le, k) && Sort(s, le)[|s| - 1] == s[k]
  {
    k := 0;
    if |s| > 1 {
      var rest := s[1..];
      var r := SortedLast(rest, le);
      SortSorts(rest, le);
      InsertedLast(s[0], Sort(rest, le), le);
      k := StoodLastNext(s, le, r);
    } else {
      assert s[1..] == [] && Sort(s, le) == [s[0]];
    }
  }

  lemma {:induction false} StoodLastNext<T(!new)>(s: seq<T>, le: (T, T) -> bool, r: nat) returns (k: nat)
    requires Preorder(le) && |s| > 1 && StoodLast(s[1..], le, r)
    ensures StoodLast(s, le, k) && k == if le(s[0], s[r + 1]) then r + 1 else 0
  {
    k := if le(s[0], s[r + 1]) then r + 1 else 0;
    forall j | 0 <= j < |s| ensures le(s[j], s[k]) && (le(s[k], s[j]) ==> j <= k) {
      if j > 0 { assert s[j] == s[1..][j - 1]; }
    }
  }

  lemma {:induction false} InsertedLast<T(!new)>(x: T, s: seq<T>, le: (T, T) -> bool)
    requires Preorder(le) && Ordered(s, le) && s != []
    ensures |Insert(x, s, le)| == |s| + 1
    ensures Insert(x, s, le)[|s|] == if le(x, s[|s| - 1]) then s[|s| - 1] else x
  {
    if !le(x, s[0]) && |s| > 1 { InsertedLast(x, s[1..], le); }
  }

  // ----- where the kept elements of a list stood -----

  /** Element i of a list stands last among those kept. */
  predicate StoodLastKept<T>(s: seq<T>, keep: T -> bool, le: (T, T) -> bool, i: int) {
    && 0 <= i < |s| && keep(s[i])
    && forall j | 0 <= j < |s| && keep(s[j]) :: le(s[j], s[i]) && (le(s[i], s[j]) ==> j <= i)
  }

  lemma {:induction false} LastOfKept<T>(s: seq<T>, keep: T -> bool, le: (T, T) -> bool, k: nat) returns (i: nat)
    requires StoodLast(Filter(s, keep), le, k)
    ensures StoodLastKept(s, keep, le, i) && s[i] == Filter(s, keep)[k]
  {
    assert s[..|s|] == s;
    i := KeptFrom(s, keep, k, |s|);
    forall j | 0 <= j < |s| && keep(s[j]) ensures le(s[j], s[i]) && (le(s[i], s[j]) ==> j <= i) {
      KeptAt(s, keep, j, |s|);
      if j > i {
        KeptGrows(s, keep, i + 1, j);
        FilterNext(s, i, keep);
      }
    }
  }

  // ----- the signal -----

  function KnownAt(m: Market, ticker: string, formation: int, cutoff: int, freshDays: int): Event -> bool {
    (e: Event) => Known(m, e, ticker, formation, cutoff, freshDays)
  }

  function PreparedEvent(m: Market): Event -> Prepared {
    (e: Event) => if Prepare(m, e).Ready? then Prepare(m, e).prepared else Prepared(e, 0, 0.0, 0.0, 0.0)
  }

  predicate AnnouncedLe(a: Event, b: Event) { a.announced <= b.announced }

  lemma MappedNext<A, B>(s: seq<A>, x: A, f: A -> B)
    ensures Mapped(s + [x], f) == Mapped(s, f) + [f(x)]
  {
  }

  /** Preparing every event and keeping the visible ones is keeping the known events and preparing those. */
  lemma {:induction false} VisibleAreKnown(m: Market, events: seq<Event>, ticker: string, formation: int, cutoff: int,
                                           freshDays: int)
    ensures Filter(PreparedOf(m, events, ticker), VisibleAt(formation, cutoff, freshDays))
         == Mapped(Filter(events, KnownAt(m, ticker, formation, cutoff, freshDays)), PreparedEvent(m))
  {
    if events != [] {
      var front, last := events[..|events| - 1], events[|events| - 1];
      var visible, keep := VisibleAt(formation, cutoff, freshDays), KnownAt(m, ticker, formation, cutoff, freshDays);
      var before, known := PreparedOf(m, front, ticker), Filter(front, keep);
      VisibleAreKnown(m, front, ticker, formation, cutoff, freshDays);
      PrepareTells(m, last);
      if last.ticker == ticker && Prepare(m, last).Ready? {
        var p := Prepare(m, last).prepared;
        PreparedIsOf(m, last);
        assert (before + [p])[..|before|] == before;
        assert PreparedOf(m, events, ticker) == before + [p];
        assert Filter(before + [p], visible) == Filter(before, visible) + if keep(last) then [p] else [];
      } else {
        assert PreparedOf(m, events, ticker) == before;
      }
      if keep(last) {
        MappedNext(known, last, PreparedEvent(m));
      } else {
        assert Filter(events, keep) == known;
      }
    }
  }

  lemma PreparedIsOf(m: Market, e: Event)
    requires Prepare(m, e).Ready?
    ensures Prepare(m, e).prepared.event == e
  {
    PriceIsBefore(m, e);
  }

  /** A formation's signal is prepared from its newest known event; without a known event it has none. */
  lemma {:induction false} SignalTells(m: Market, events: seq<Event>, ticker: string, formation: int, cutoff: int,
                                       freshDays: int) returns (i: nat)
    ensures var signal := SignalAt(PreparedOf(m, events, ticker), formation, cutoff, freshDays);
      if signal.None? then forall e | e in events :: !Known(m, e, ticker, formation, cutoff, freshDays)
      else Newest(m, events, ticker, formation, cutoff, freshDays, i) && Scaled(m, events[i], signal.value)
  {
    var keep := KnownAt(m, ticker, formation, cutoff, freshDays);
    if Filter(events, keep) == [] {
      i := 0;
      NothingVisible(m, events, ticker, formation, cutoff, freshDays);
      forall e | e in events ensures !Known(m, e, ticker, formation, cutoff, freshDays) {
        FilterKeeps(events, keep, e);
      }
    } else {
      i := LastVisible(m, events, ticker, formation, cutoff, freshDays);
      StoodIsNewest(m, events, ticker, formation, cutoff, freshDays, i);
      PrepareTells(m, events[i]);
    }
  }

  lemma {:induction false} SignalOfVisible(m: Market, events: seq<Event>, ticker: string, formation: int, cutoff: int,
                                           freshDays: int)
    ensures var known := Filter(events, KnownAt(m, ticker, formation, cutoff, freshDays));
      SignalAt(PreparedOf(m, events, ticker), formation, cutoff, freshDays)
        == LastOf(Sort(Mapped(known, PreparedEvent(m)), TimeLe))
  {
    assert Preorder(TimeLe);
    FilterOfSort(PreparedOf(m, events, ticker), VisibleAt(formation, cutoff, freshDays), TimeLe);
    VisibleAreKnown(m, events, ticker, formation, cutoff, freshDays);
  }

  lemma {:induction false} NothingVisible(m: Market, events: seq<Event>, ticker: string, formation: int, cutoff: int,
                                          freshDays: int)
    requires Filter(events, KnownAt(m, ticker, formation, cutoff, freshDays)) == []
    ensures SignalAt(PreparedOf(m, events, ticker), formation, cutoff, freshDays).None?
  {
    SignalOfVisible(m, events, ticker, formation, cutoff, freshDays);
  }

  lemma {:induction false} LastVisible(m: Market, events: seq<Event>, ticker: string, formation: int, cutoff: int,
                                       freshDays: int) returns (i: nat)
    requires Filter(events, KnownAt(m, ticker, formation, cutoff, freshDays)) != []
    ensures StoodLastKept(events, KnownAt(m, ticker, formation, cutoff, freshDays), AnnouncedLe, i)
    ensures SignalAt(PreparedOf(m, events, ticker), formation, cutoff, freshDays) == Some(PreparedEvent(m)(events[i]))
  {
    var keep := KnownAt(m, ticker, formation, cutoff, freshDays);
    SignalOfVisible(m, events, ticker, formation, cutoff, freshDays);
    var k := LastOfSorted(m, Filter(events, keep));
    i := LastOfKept(events, keep, AnnouncedLe, k);
  }

  lemma {:induction false} LastOfSorted(m: Market, known: seq<Event>) returns (k: nat)
    requires known != []
    ensures StoodLast(known, AnnouncedLe, k)
    ensures LastOf(Sort(Mapped(known, PreparedEvent(m)), TimeLe)) == Some(PreparedEvent(m)(known[k]))
  {
    var chosen := Mapped(known, PreparedEvent(m));
    TimeIsPreorder();
    k := LastOfSort(chosen, TimeLe);
    KnownStoodLast(m, known, chosen, k);
  }

  lemma TimeIsPreorder()
    ensures Preorder(TimeLe)
  {
  }

  lemma {:induction false} LastOfSort<T(!new)>(s: seq<T>, le: (T, T) -> bool) returns (k: nat)
    requires Preorder(le) && s != []
    ensures StoodLast(s, le, k) && LastOf(Sort(s, le)) == Some(s[k])
  {
    k := SortedLast(s, le);
  }

  lemma StoodIsNewest(m: Market, events: seq<Event>, ticker: string, formation: int, cutoff: int, freshDays: int,
                      i: int)
    requires StoodLastKept(events, KnownAt(m, ticker, formation, cutoff, freshDays), AnnouncedLe, i)
    ensures Newest(m, events, ticker, formation, cutoff, freshDays, i)
  {
    var keep := KnownAt(m, ticker, formation, cutoff, freshDays);
    forall j | 0 <= j < |events| && Known(m, events[j], ticker, formation, cutoff, freshDays)
      ensures events[j].announced < events[i].announced || (events[j].announced == events[i].announced && j <= i)
    {
      assert keep(events[j]) && AnnouncedLe(events[j], events[i]) && (AnnouncedLe(events[i], events[j]) ==> j <= i);
    }
  }

  lemma KnownStoodLast(m: Market, known: seq<Event>, chosen: seq<Prepared>, k: nat)
    requires chosen == Mapped(known, PreparedEvent(m)) && StoodLast(chosen, TimeLe, k)
    ensures StoodLast(known, AnnouncedLe, k)
  {
    forall j | 0 <= j < |known| ensures chosen[j].event == known[j] {
      if Prepare(m, known[j]).Ready? { PreparedIsOf(m, known[j]); }
    }
    forall j | 0 <= j < |known|
      ensures AnnouncedLe(known[j], known[k]) && (AnnouncedLe(known[k], known[j]) ==> j <= k)
    {
      assert TimeLe(chosen[j], chosen[k]) && (TimeLe(chosen[k], chosen[j]) ==> j <= k);
    }
  }

  // ----- the outcome -----

  predicate BarListed(m: Market, ticker: string, day: int) {
    ticker in m.bars && exists b | 0 <= b < |m.bars[ticker]| :: m.bars[ticker][b].day == day
  }

  /** The last bar of the day shows this price. */
  predicate LastBar(bars: seq<Bar>, day: int, price: Option<real>) {
    exists b | 0 <= b < |bars| ::
      bars[b] == Bar(day, price) && forall c | b < c < |bars| :: bars[c].day != day
  }

  predicate BarQuoted(m: Market, ticker: string, day: int) {
    && ticker in m.bars
    && exists b | 0 <= b < |m.bars[ticker]| ::
         LastBar(m.bars[ticker], day, m.bars[ticker][b].price) && Positive(m.bars[ticker][b].price)
  }

  /** The first thing an entry lacks: a split-normalized price, an unadjusted one, an adjusted one, a capitalisation. */
  predicate Lacks(m: Market, ticker: string, formation: int, entry: int, problem: Problem) {
    match problem
    case MissingSplitEntry => !BarListed(m, ticker, entry)
    case BadSplitEntry => BarListed(m, ticker, entry) && !BarQuoted(m, ticker, entry)
    case MissingExecutionEntry => BarQuoted(m, ticker, entry) && !Listed(m.unadjusted, ticker, entry)
    case BadExecutionEntry =>
      BarQuoted(m, ticker, entry) && Listed(m.unadjusted, ticker, entry) && !Quoted(m.unadjusted, ticker, entry)
    case MissingAdjustedEntry => Traded(m, ticker, entry) && !Listed(m.adjusted, ticker, entry)
    case BadAdjustedEntry =>
      Traded(m, ticker, entry) && Listed(m.adjusted, ticker, entry) && !Quoted(m.adjusted, ticker, entry)
    case MissingMarketCap =>
      Traded(m, ticker, entry) && Quoted(m.adjusted, ticker, entry) && !Quoted(m.caps, ticker, formation)
  }

  predicate Traded(m: Market, ticker: string, entry: int) {
    BarQuoted(m, ticker, entry) && Quoted(m.unadjusted, ticker, entry)
  }

  /** The prices of a record are those quoted on its entry day, its capitalisation that of the formation day. */
  predicate Entered(m: Market, r: Record) {
    && r.ticker in m.bars && LastBar(m.bars[r.ticker], r.entry, Some(r.split)) && r.split > 0.0
    && Quoted(m.unadjusted, r.ticker, r.entry) && m.unadjusted[r.ticker][r.entry] == Some(r.execution)
    && Quoted(m.adjusted, r.ticker, r.entry) && m.adjusted[r.ticker][r.entry] == Some(r.adjusted)
    && Quoted(m.caps, r.ticker, r.formation) && m.caps[r.ticker][r.formation] == Some(r.cap)
  }

  /** What a formation's outcome for a ticker says about the market and the events. */
  predicate Tells(m: Market, events: seq<Event>, position: nat, ticker: string, horizons: seq<nat>, freshDays: int,
                  r: Formed)
    requires position + 1 < |m.sessions| && m.sessions[position] in m.close
  {
    var formation, entry, cutoff := m.sessions[position], m.sessions[position + 1], m.close[m.sessions[position]];
    var member := formation in m.members && ticker in m.members[formation];
    match r
    case Silent => !member || forall e | e in events :: !Known(m, e, ticker, formation, cutoff, freshDays)
    case Excluded(problem) =>
      && member && (exists e | e in events :: Known(m, e, ticker, formation, cutoff, freshDays))
      && Lacks(m, ticker, formation, entry, problem)
    case Emitted(rec) =>
      && member && rec.formation == formation && rec.entry == entry && rec.ticker == ticker && Entered(m, rec)
      && (exists i | 0 <= i < |events| ::
            Newest(m, events, ticker, formation, cutoff, freshDays, i) && Scaled(m, events[i], rec.signal))
      && |rec.exits| == |horizons|
      && forall i | 0 <= i < |horizons| ::
           rec.exits[i] == if position + 1 + horizons[i] < |m.sessions|
                           then Some(m.sessions[position + 1 + horizons[i]]) else None
  }

  /** The bar a lookup by date finds is the last of the day. */
  lemma {:induction false} BarAt(bars: seq<Bar>, day: int) returns (b: nat)
    ensures BarOn(bars, day).Absent? <==> forall c | 0 <= c < |bars| :: bars[c].day != day
    ensures !BarOn(bars, day).Absent? ==>
      && b < |bars| && bars[b].day == day && (forall c | b < c < |bars| :: bars[c].day != day)
      && BarOn(bars, day) == Usably(bars[b].price)
  {
    b := 0;
    if bars != [] {
      var front, last := bars[..|bars| - 1], |bars| - 1;
      if bars[last].day == day {
        b := last;
      } else {
        b := BarAt(front, day);
        assert forall c | 0 <= c < |front| :: front[c] == bars[c];
      }
    }
  }

  lemma OneLastBar(bars: seq<Bar>, day: int, b: nat, price: Option<real>)
    requires b < |bars| && bars[b].day == day && forall c | b < c < |bars| :: bars[c].day != day
    ensures LastBar(bars, day, price) <==> bars[b].price == price
  {
    assert bars[b] == Bar(day, bars[b].price);
  }

  lemma {:induction false} BarTells(bars: seq<Bar>, day: int)
    ensures BarOn(bars, day).Absent? <==> forall b | 0 <= b < |bars| :: bars[b].day != day
    ensures BarOn(bars, day).Usable? <==> exists b | 0 <= b < |bars| ::
              LastBar(bars, day, bars[b].price) && Positive(bars[b].price)
    ensures BarOn(bars, day).Usable? ==>
      LastBar(bars, day, Some(BarOn(bars, day).price)) && BarOn(bars, day).price > 0.0
  {
    var b := BarAt(bars, day);
    if !BarOn(bars, day).Absent? {
      forall price ensures LastBar(bars, day, price) <==> bars[b].price == price { OneLastBar(bars, day, b, price); }
    }
  }

  lemma QuoteTells(panel: Panel, ticker: string, day: int)
    ensures var q := QuoteOn(PricesOf(panel, ticker), day);
      && (q.Absent? <==> !Listed(panel, ticker, day)) && (q.Usable? <==> Quoted(panel, ticker, day))
      && (q.Usable? ==> panel[ticker][day] == Some(q.price))
  {
  }

  /** The four quotes an entry needs, as looked up and as told. */
  lemma EntryTells(m: Market, signal: Prepared, position: nat, ticker: string, horizons: seq<nat>)
    requires position + 1 < |m.sessions|
    ensures var r := Form(m, signal, position, ticker, horizons);
      && (r.Excluded? ==> Lacks(m, ticker, m.sessions[position], m.sessions[position + 1], r.problem))
      && (r.Emitted? ==> Entered(m, r.record) && r.record.signal == signal)
  {
    var formation, entry := m.sessions[position], m.sessions[position + 1];
    BarTells(BarsOf(m, ticker), entry);
    QuoteTells(m.unadjusted, ticker, entry);
    QuoteTells(m.adjusted, ticker, entry);
    QuoteTells(m.caps, ticker, formation);
  }

  /** Every outcome is what it says: a record uses the newest event known before the formation close, scaled by the last
      close before its announcement, and enters at the prices quoted on the next session; an exclusion names the first
      thing that entry lacks; silence means there was no known event, or no membership. */
  lemma RecordTells(m: Market, events: seq<Event>, position: nat, ticker: string, horizons: seq<nat>, freshDays: int)
    requires position + 1 < |m.sessions| && m.sessions[position] in m.close
    ensures Tells(m, events, position, ticker, horizons, freshDays,
                  RecordAt(m, events, position, ticker, horizons, freshDays))
  {
    var formation := m.sessions[position];
    var signal := SignalAt(PreparedOf(m, events, ticker), formation, m.close[formation], freshDays);
    var i := SignalTells(m, events, ticker, formation, m.close[formation], freshDays);
    if signal.Some? {
      assert events[i] in events;
      EntryTells(m, signal.value, position, ticker, horizons);
    }
  }
}
