/** What a matched event rests on, told in the rows of the two tables: the one report with its key, the one estimate of
    the latest earlier day, and the fields its numbers were read from. */
module EventEvidence {
  import opened Optional
  import opened Texts
  import opened Documents
  import opened Dates
  import opened Ordering
  import opened Grouping
  import opened Vintages
  import opened Consensus
  import opened Matching

  // ----- reading a row -----

  predicate TextIn(row: Row, name: string) { name in row && row[name].Text? }

  predicate FilledIn(row: Row, name: string) { TextIn(row, name) && !Blank(row[name].text) }

  /** Trimmed and in upper case. */
  function CodeIn(row: Row, name: string, r: Rules): string
    requires TextIn(row, name)
  {
    r.upper(Strip(row[name].text))
  }

  predicate DayIn(row: Row, name: string, day: int) { name in row && IsoDay(row[name]) == Some(day) }

  predicate NumberIn(row: Row, name: string, x: real) {
    name in row && (row[name] == Float(x) || (row[name].Whole? && row[name].whole as real == x))
  }

  predicate CountIn(row: Row, name: string, n: int) { name in row && row[name] == Whole(n) && n >= 2 }

  predicate KeyIn(row: Row, k: Key, r: Rules) {
    && FilledIn(row, "m_ticker") && FilledIn(row, "per_end_date") && FilledIn(row, "per_type")
    && IsoDay(row["per_end_date"]).Some?
    && k == Key(CodeIn(row, "m_ticker", r), row["per_end_date"].text, CodeIn(row, "per_type", r))
  }

  predicate TickerIn(row: Row, ticker: string, r: Rules) {
    if "ticker" !in row then ticker == r.upper("")
    else if row["ticker"].Text? then ticker == CodeIn(row, "ticker", r)
    else ticker == r.upper(Strip(r.shown(row["ticker"])))
  }

  /** Before the open until half past nine, during the session until four, after the close from then on. */
  predicate SessionFits(code: string, c: Clock) {
    var minute := 60 * c.hour + c.minute;
    || (code == "BTO" && minute < 9 * 60 + 30)
    || (code == "DTM" && 9 * 60 + 30 <= minute < 16 * 60)
    || (code == "AMC" && 16 * 60 <= minute)
  }

  /** The announcement: a clock time that fits its session code, on the report day. */
  predicate AnnouncedIn(row: Row, day: int, instant: string, code: string, r: Rules) {
    && TextIn(row, "act_rpt_time") && TextIn(row, "act_rpt_code") && code == CodeIn(row, "act_rpt_code", r)
    && r.clock(row["act_rpt_time"].text).Some?
    && SessionFits(code, r.clock(row["act_rpt_time"].text).value)
    && instant == r.instant(day, r.clock(row["act_rpt_time"].text).value)
  }

  // ----- an event and its two rows -----

  /** The report of an event: a quarterly dollar report, announced when the event says, with its numbers. */
  predicate ReportOf(e: Event, row: Row, r: Rules) {
    && KeyIn(row, e.key, r) && e.key.periodType == "Q" && TickerIn(row, e.ticker, r)
    && FilledIn(row, "currency_code") && CodeIn(row, "currency_code", r) == e.currency == "USD"
    && DayIn(row, "act_rpt_date", e.reportDay) && AnnouncedIn(row, e.reportDay, e.announcedAt, e.code, r)
    && e.time == row["act_rpt_time"]
    && NumberIn(row, r.actual, e.actual) && NumberIn(row, r.mean, e.tableConsensus)
    && CountIn(row, r.count, e.tableAnalysts)
    && match e.adjustment
       case Some(x) => NumberIn(row, r.adjustment, x)
       case None => r.adjustment !in row || (!row[r.adjustment].Whole? && !row[r.adjustment].Float?)
  }

  /** The estimate it is held against. */
  predicate EstimateOf(e: Event, row: Row, r: Rules) {
    && KeyIn(row, e.key, r) && e.ticker != "" && TickerIn(row, e.ticker, r)
    && TextIn(row, "currency_code") && CodeIn(row, "currency_code", r) == e.currency
    && DayIn(row, "obs_date", e.consensusDay) && NumberIn(row, r.mean, e.consensus) && CountIn(row, r.count, e.analysts)
  }

  /** The two consensus figures agree, and the forecast error is what was reported less what was expected. */
  predicate Compared(e: Event, r: Rules) {
    && e.difference <= r.tolerance && e.error == e.actual - e.consensus
    && e.difference == if e.tableConsensus >= e.consensus then e.tableConsensus - e.consensus
                       else e.consensus - e.tableConsensus
  }

  /** Row a is the only report with the key. */
  predicate OnlyReport(actuals: seq<Row>, k: Key, a: int, r: Rules) {
    && 0 <= a < |actuals| && KeyIn(actuals[a], k, r)
    && forall b | 0 <= b < |actuals| && KeyIn(actuals[b], k, r) :: b == a
  }

  /** Row v is the only estimate with the key on its day, and the key has none between that day and the report. */
  predicate LastEstimate(history: seq<Row>, k: Key, v: int, on: int, report: int, r: Rules) {
    && 0 <= v < |history| && KeyIn(history[v], k, r) && DayIn(history[v], "obs_date", on) && on < report
    && forall w | 0 <= w < |history| && KeyIn(history[w], k, r) && "obs_date" in history[w] ::
         IsoDay(history[w]["obs_date"]).Some? && on <= IsoDay(history[w]["obs_date"]).value < report ==> w == v
  }

  /** The event stands on these two rows. */
  predicate StandsOn(e: Event, actuals: seq<Row>, a: int, history: seq<Row>, v: int, r: Rules) {
    && OnlyReport(actuals, e.key, a, r) && LastEstimate(history, e.key, v, e.consensusDay, e.reportDay, r)
    && ReportOf(e, actuals[a], r) && EstimateOf(e, history[v], r) && Compared(e, r)
  }

  // ----- the readings -----

  lemma KeyTells(row: Row, k: Key, r: Rules)
    ensures EventKey(row, r) == Some(k) <==> KeyIn(row, k, r)
  {
  }

  lemma AnnouncementTells(row: Row, day: int, instant: string, code: string, r: Rules)
    requires ReportDay(row) == Some(day)
    ensures AnnouncedIn(row, day, instant, code, r)
      <==> Announcement(row, r) == At(instant) && TextIn(row, "act_rpt_code") && code == CodeIn(row, "act_rpt_code", r)
  {
  }

  lemma NumberTells(row: Row, name: string, x: real)
    ensures NumberIn(row, name, x) <==> Number(Get(row, name)) == Some(x)
  {
  }

  lemma CountTells(row: Row, name: string, n: int)
    ensures CountIn(row, name, n) <==> Analysts(Get(row, name)) == Some(n)
  {
  }

  lemma TickerTells(row: Row, ticker: string, r: Rules)
    ensures TickerIn(row, ticker, r) <==> Ticker(row, r) == ticker
  {
  }

  // ----- one event -----

  /** The report of a key and the estimate chosen for it, as rows with that key. */
  predicate Keyed(k: Option<Key>, rows: seq<Row>, choice: Option<Choice>, r: Rules) {
    && rows != [] && EventKey(rows[0], r) == k
    && (choice.Some? ==> k.Some? && ReportDay(rows[0]).Some?)
    && (choice.Some? && choice.value.Chosen? ==>
        EventKey(choice.value.row, r) == k && ObservedOn(choice.value.row) == Some(choice.value.on))
  }

  /** The event made of the two rows. */
  predicate MadeOf(e: Event, k: Option<Key>, rows: seq<Row>, choice: Option<Choice>, r: Rules) {
    && k == Some(e.key) && |rows| == 1 && choice.Some? && choice.value.Chosen? && choice.value.on == e.consensusDay
    && ReportOf(e, rows[0], r) && EstimateOf(e, choice.value.row, r) && Compared(e, r)
  }

  /** A complete quarterly dollar reading against a complete estimate of the same ticker and currency. */
  predicate Agreeing(a: Reading, v: Estimate, r: Rules) {
    && CompleteReading(a, v) && Present(a.currency) && Code(a.currency, r) == "USD"
    && v.currency.Text? && Code(v.currency, r) == "USD" && v.ticker == a.ticker != ""
    && !FailsCrossCheck(a, Some(v), r.tolerance)
  }

  /** No test is raised exactly on such a pair, when the report is the only one of its key. */
  lemma {:induction false} QuietTells(k: Option<Key>, several: bool, a: Reading, choice: Option<Choice>,
                                      v: Option<Estimate>, r: Rules)
    requires v.Some? <==> choice.Some? && choice.value.Chosen?
    ensures Raised(PrimaryChecks(k, several, a, choice, v, r)) == {}
      <==> k.Some? && k.value.periodType == "Q" && !several && v.Some? && Agreeing(a, v.value, r)
  {
    var check := PrimaryChecks(k, several, a, choice, v, r);
    assert check(3) == StampCheck(a.stamp);
    if Raised(check) == {} {
      PrimaryQuiet(k, several, a, choice, v, r);
      Quiet(check, 1); Quiet(check, 2); Quiet(check, 5); Quiet(check, 14); Quiet(check, 15); Quiet(check, 16);
      Quiet(check, 17);
      assert !CodesDiffer(v.value.currency, a.currency, r);
      assert v == Some(v.value) && Agreeing(a, v.value, r);
    }
    if k.Some? && k.value.periodType == "Q" && !several && v.Some? && Agreeing(a, v.value, r) {
      assert v == Some(v.value);
      forall i | 0 <= i < CHECKS ensures !check(i).raised { AgreeingIsQuiet(k, a, choice, v.value, r, i); }
      NothingRaised(check);
    }
  }

  lemma NothingRaised(check: int -> Check)
    requires forall i | 0 <= i < CHECKS :: !check(i).raised
    ensures Raised(check) == {}
  {
  }

  lemma {:induction false} AgreeingIsQuiet(k: Option<Key>, a: Reading, choice: Option<Choice>, v: Estimate, r: Rules,
                                           i: int)
    requires k.Some? && k.value.periodType == "Q" && choice.Some? && choice.value.Chosen? && Agreeing(a, v, r)
    requires 0 <= i < CHECKS
    ensures !PrimaryChecks(k, false, a, choice, Some(v), r)(i).raised
  {
    assert !CodesDiffer(v.currency, a.currency, r);
    assert i == 3 ==> PrimaryChecks(k, false, a, choice, Some(v), r)(i) == StampCheck(a.stamp);
  }

  /** The verdict on the report of a key: an event exactly when it is made of the report and its estimate. */
  lemma {:induction false} VerdictTells(e: Event, k: Option<Key>, rows: seq<Row>, choice: Option<Choice>, r: Rules)
    requires Keyed(k, rows, choice, r)
    ensures PrimaryResult(k, rows, choice, r) == Matched(e) <==> MadeOf(e, k, rows, choice, r)
  {
    QuietTells(k, |rows| != 1, ReadActual(rows[0], r), choice, Found(choice, r), r);
    if k.Some? && choice.Some? && choice.value.Chosen? {
      PairTells(e, k.value, rows[0], choice.value.row, choice.value.on, r);
    }
  }

  /** The event the two readings are written as is the one made of the two rows. */
  lemma {:induction false} PairTells(e: Event, k: Key, row: Row, v: Row, on: int, r: Rules)
    requires EventKey(row, r) == EventKey(v, r) == Some(k) && ReportDay(row).Some? && ObservedOn(v) == Some(on)
    ensures var a, b := ReadActual(row, r), ReadVintage(v, r);
      (k.periodType == "Q" && Agreeing(a, b, r) && e == Written(k, row, v, on, r))
      <==> k == e.key && on == e.consensusDay && ReportOf(e, row, r) && EstimateOf(e, v, r) && Compared(e, r)
  {
    KeyTells(row, k, r);
    KeyTells(v, k, r);
    PairReads(e, k, row, v, on, r);
    if k == e.key {
      ReadingTells(e, row, r);
      VintageTells(e, v, r);
    }
  }

  lemma {:induction false} PairReads(e: Event, k: Key, row: Row, v: Row, on: int, r: Rules)
    requires ReportDay(row).Some? && ObservedOn(v) == Some(on)
    ensures var a, b := ReadActual(row, r), ReadVintage(v, r);
      (k.periodType == "Q" && Agreeing(a, b, r) && e == Written(k, row, v, on, r))
      <==> k == e.key && on == e.consensusDay && ReportReads(e, row, r) && EstimateReads(e, v, r) && Compared(e, r)
  {
  }

  /** The event as it is written from two rows that agree. */
  function Written(k: Key, row: Row, v: Row, on: int, r: Rules): Event
    requires ReportDay(row).Some? && Agreeing(ReadActual(row, r), ReadVintage(v, r), r)
  {
    StampPassed(row, r);
    EventOf(k, row, ReadActual(row, r), Code(Get(row, "currency_code"), r), ReportDay(row).value, ReadVintage(v, r), on,
            r)
  }

  /** What the report of an event reads as. */
  predicate ReportReads(e: Event, row: Row, r: Rules) {
    && e.key.periodType == "Q" && ReportDay(row) == Some(e.reportDay)
    && ReadActual(row, r).stamp == At(e.announcedAt)
    && Get(row, "act_rpt_code").Text? && e.code == Code(Get(row, "act_rpt_code"), r)
    && Present(Get(row, "currency_code")) && Code(Get(row, "currency_code"), r) == e.currency == "USD"
    && ReadActual(row, r).actual == Some(e.actual) && ReadActual(row, r).mean == Some(e.tableConsensus)
    && ReadActual(row, r).count == Some(e.tableAnalysts) && ReadActual(row, r).ticker == e.ticker
    && e.time == Get(row, "act_rpt_time") && e.adjustment == Number(Get(row, r.adjustment))
  }

  lemma ReadingTells(e: Event, row: Row, r: Rules)
    requires KeyIn(row, e.key, r)
    ensures ReportOf(e, row, r) <==> ReportReads(e, row, r)
  {
    if ReportDay(row) == Some(e.reportDay) { AnnouncementTells(row, e.reportDay, e.announcedAt, e.code, r); }
    NumberTells(row, r.actual, e.actual);
    NumberTells(row, r.mean, e.tableConsensus);
    CountTells(row, r.count, e.tableAnalysts);
    TickerTells(row, e.ticker, r);
    if e.adjustment.Some? { NumberTells(row, r.adjustment, e.adjustment.value); }
  }

  predicate EstimateReads(e: Event, row: Row, r: Rules) {
    && ReadVintage(row, r).mean == Some(e.consensus) && ReadVintage(row, r).count == Some(e.analysts)
    && ReadVintage(row, r).ticker == e.ticker != "" && ObservedOn(row) == Some(e.consensusDay)
    && Get(row, "currency_code").Text? && Code(Get(row, "currency_code"), r) == e.currency
  }

  lemma VintageTells(e: Event, row: Row, r: Rules)
    requires KeyIn(row, e.key, r)
    ensures EstimateOf(e, row, r) <==> EstimateReads(e, row, r)
  {
    NumberTells(row, r.mean, e.consensus);
    CountTells(row, r.count, e.analysts);
    TickerTells(row, e.ticker, r);
  }

  // ----- the rows of a key -----

  /** Row a is the only one with the key. */
  predicate Sole<T, K(==)>(rows: seq<T>, key: T -> K, k: K, a: int) {
    0 <= a < |rows| && key(rows[a]) == k && forall b | 0 <= b < |rows| && key(rows[b]) == k :: b == a
  }

  lemma {:induction false} SoleMember<T, K>(rows: seq<T>, key: T -> K, k: K, a: int)
    requires Sole(rows, key, k, a)
    ensures Members(rows, key, k) == [rows[a]]
  {
    var front := rows[..|rows| - 1];
    if a == |rows| - 1 {
      KeyHasMembers(front, key, k);
      if Members(front, key, k) != [] {
        MembersHaveKey(front, key, k, 0);
        assert false;
      }
    } else {
      assert front[a] == rows[a];
      SoleMember(front, key, k, a);
    }
  }

  lemma {:induction false} MemberIsSole<T, K>(rows: seq<T>, key: T -> K, k: K) returns (a: nat)
    requires |Members(rows, key, k)| == 1
    ensures Sole(rows, key, k, a) && Members(rows, key, k) == [rows[a]]
  {
    var front := rows[..|rows| - 1];
    if key(rows[|rows| - 1]) == k {
      a := |rows| - 1;
      forall b | 0 <= b < |rows| && key(rows[b]) == k ensures b == a {
        if b < a {
          RowIsMember(front, key, front[b]);
          assert false;
        }
      }
    } else {
      a := MemberIsSole(front, key, k);
      forall b | 0 <= b < |rows| && key(rows[b]) == k ensures b == a { assert b < |front| && front[b] == rows[b]; }
    }
  }

  /** The rows of one key on one day. */
  function KeyAndDay(r: Rules): Row -> (Option<Key>, Option<int>) { row => (EventKey(row, r), ObservedOn(row)) }

  lemma OnDayNext(rows: seq<Row>, row: Row, d: int)
    ensures OnDay(rows + [row], d) == OnDay(rows, d) + if ObservedOn(row) == Some(d) then [row] else []
  {
    assert (rows + [row])[..|rows|] == rows;
  }

  lemma {:induction false} DayOfMembers(history: seq<Row>, k: Key, d: int, r: Rules)
    ensures OnDay(Members(history, KeyBy(r), Some(k)), d) == Members(history, KeyAndDay(r), (Some(k), Some(d)))
  {
    if history != [] {
      var front, last := history[..|history| - 1], history[|history| - 1];
      DayOfMembers(front, k, d, r);
      var before := Members(front, KeyBy(r), Some(k));
      if KeyBy(r)(last) == Some(k) {
        OnDayNext(before, last, d);
      } else {
        assert Members(history, KeyBy(r), Some(k)) == before;
        assert KeyAndDay(r)(last) != (Some(k), Some(d));
      }
    }
  }

  lemma {:induction false} DayHasRow(history: seq<Row>, k: Key, d: int, r: Rules, w: nat)
    requires w < |history| && EventKey(history[w], r) == Some(k) && ObservedOn(history[w]) == Some(d)
    ensures OnDay(Members(history, KeyBy(r), Some(k)), d) != []
  {
    DayOfMembers(history, k, d, r);
    RowIsMember(history, KeyAndDay(r), history[w]);
  }

  lemma {:induction false} DayGivesRow(history: seq<Row>, k: Key, d: int, r: Rules) returns (w: nat)
    requires OnDay(Members(history, KeyBy(r), Some(k)), d) != []
    ensures w < |history| && EventKey(history[w], r) == Some(k) && ObservedOn(history[w]) == Some(d)
  {
    DayOfMembers(history, k, d, r);
    MembersHaveKey(history, KeyAndDay(r), (Some(k), Some(d)), 0);
    var x := Members(history, KeyAndDay(r), (Some(k), Some(d)))[0];
    w :| 0 <= w < |history| && history[w] == x;
  }

  lemma ObservedTells(row: Row, d: int)
    ensures ObservedOn(row) == Some(d) <==> DayIn(row, "obs_date", d)
  {
  }

  lemma {:induction false} ChosenStands(history: seq<Row>, k: Key, report: int, r: Rules) returns (v: nat)
    requires Latest(Members(history, KeyBy(r), Some(k)), report).Chosen?
    ensures var c := Latest(Members(history, KeyBy(r), Some(k)), report);
      v < |history| && history[v] == c.row && LastEstimate(history, k, v, c.on, report, r)
  {
    var rows := Members(history, KeyBy(r), Some(k));
    var on := Latest(rows, report).on;
    DayOfMembers(history, k, on, r);
    v := MemberIsSole(history, KeyAndDay(r), (Some(k), Some(on)));
    LatestHasRow(rows, report);
    KeyTells(history[v], k, r);
    ObservedTells(history[v], on);
    forall w | 0 <= w < |history| && KeyIn(history[w], k, r) && "obs_date" in history[w]
               && IsoDay(history[w]["obs_date"]).Some? && on <= IsoDay(history[w]["obs_date"]).value < report
      ensures w == v
    {
      NoneBetween(history, k, report, r, w);
    }
  }

  lemma {:induction false} NoneBetween(history: seq<Row>, k: Key, report: int, r: Rules, w: nat)
    requires Latest(Members(history, KeyBy(r), Some(k)), report).Chosen?
    requires w < |history| && KeyIn(history[w], k, r)
    requires "obs_date" in history[w] && IsoDay(history[w]["obs_date"]).Some?
    requires Latest(Members(history, KeyBy(r), Some(k)), report).on <= IsoDay(history[w]["obs_date"]).value < report
    ensures KeyAndDay(r)(history[w]) == (Some(k), Some(Latest(Members(history, KeyBy(r), Some(k)), report).on))
  {
    LaterIsNone(history, k, report, r, w, IsoDay(history[w]["obs_date"]).value);
  }

  /** A dated row of the key before the report is dated on the latest such day at most. */
  lemma {:induction false} LaterIsNone(history: seq<Row>, k: Key, report: int, r: Rules, w: nat, d: int)
    requires w < |history| && KeyIn(history[w], k, r) && DayIn(history[w], "obs_date", d) && d < report
    ensures EventKey(history[w], r) == Some(k) && ObservedOn(history[w]) == Some(d)
    ensures var latest := LatestDay(Members(history, KeyBy(r), Some(k)), report); latest.Some? && d <= latest.value
  {
    KeyTells(history[w], k, r);
    ObservedTells(history[w], d);
    DayHasRow(history, k, d, r, w);
    LatestIsGreatest(Members(history, KeyBy(r), Some(k)), report, d);
  }

  lemma {:induction false} StandingIsChosen(history: seq<Row>, k: Key, v: nat, on: int, report: int, r: Rules)
    requires LastEstimate(history, k, v, on, report, r)
    ensures Latest(Members(history, KeyBy(r), Some(k)), report) == Chosen(history[v], on)
  {
    var rows := Members(history, KeyBy(r), Some(k));
    KeyTells(history[v], k, r);
    ObservedTells(history[v], on);
    DayHasRow(history, k, on, r, v);
    LatestIsGreatest(rows, report, on);
    LatestHasRow(rows, report);
    var latest := LatestDay(rows, report).value;
    var w := DayGivesRow(history, k, latest, r);
    KeyTells(history[w], k, r);
    ObservedTells(history[w], latest);
    assert w == v && latest == on;
    forall b | 0 <= b < |history| && KeyAndDay(r)(history[b]) == (Some(k), Some(on)) ensures b == v {
      KeyTells(history[b], k, r);
      ObservedTells(history[b], on);
    }
    DayOfMembers(history, k, on, r);
    SoleMember(history, KeyAndDay(r), (Some(k), Some(on)), v);
  }

  // ----- the tables -----

  lemma {:induction false} KeyedAt(k: Option<Key>, actuals: seq<Row>, history: seq<Row>, r: Rules)
    requires Members(actuals, KeyBy(r), k) != []
    ensures var rows := Members(actuals, KeyBy(r), k); Keyed(k, rows, ChoiceFor(k, rows[0], history, r), r)
  {
    var rows := Members(actuals, KeyBy(r), k);
    MembersHaveKey(actuals, KeyBy(r), k, 0);
    var choice := ChoiceFor(k, rows[0], history, r);
    if choice.Some? && choice.value.Chosen? {
      var v := ChosenStands(history, k.value, ReportDay(rows[0]).value, r);
      KeyTells(history[v], k.value, r);
    }
  }

  lemma ReportTells(row: Row, d: int)
    ensures ReportDay(row) == Some(d) <==> DayIn(row, "act_rpt_date", d)
  {
  }

  /** The event of a key stands on the one report and the one estimate it was made of. */
  lemma {:induction false} EventStands(e: Event, k: Option<Key>, actuals: seq<Row>, history: seq<Row>, r: Rules)
    returns (a: nat, v: nat)
    requires Members(actuals, KeyBy(r), k) != [] && PrimaryAt(k, actuals, history, r) == Matched(e)
    ensures k == Some(e.key) && StandsOn(e, actuals, a, history, v, r)
  {
    var rows := Members(actuals, KeyBy(r), k);
    KeyedAt(k, actuals, history, r);
    VerdictTells(e, k, rows, ChoiceFor(k, rows[0], history, r), r);
    a := MemberIsSole(actuals, KeyBy(r), k);
    forall b | 0 <= b < |actuals| ensures KeyIn(actuals[b], e.key, r) <==> KeyBy(r)(actuals[b]) == k {
      KeyTells(actuals[b], e.key, r);
    }
    ReportTells(rows[0], e.reportDay);
    v := ChosenStands(history, e.key, e.reportDay, r);
  }

  /** And wherever an event can stand on two rows, it is the event of their key. */
  lemma {:induction false} StandingIsMatched(e: Event, actuals: seq<Row>, a: nat, history: seq<Row>, v: nat, r: Rules)
    requires StandsOn(e, actuals, a, history, v, r)
    ensures Members(actuals, KeyBy(r), Some(e.key)) == [actuals[a]]
    ensures PrimaryAt(Some(e.key), actuals, history, r) == Matched(e)
  {
    var k := Some(e.key);
    forall b | 0 <= b < |actuals| ensures KeyIn(actuals[b], e.key, r) <==> KeyBy(r)(actuals[b]) == k {
      KeyTells(actuals[b], e.key, r);
    }
    SoleMember(actuals, KeyBy(r), k, a);
    ReportTells(actuals[a], e.reportDay);
    StandingIsChosen(history, e.key, v, e.consensusDay, e.reportDay, r);
    KeyedAt(k, actuals, history, r);
    VerdictTells(e, k, [actuals[a]], ChoiceFor(k, actuals[a], history, r), r);
  }

  lemma {:induction false} EventIsListed(results: seq<Result>, e: Event)
    ensures e in EventsOf(results) <==> exists i | 0 <= i < |results| :: results[i] == Matched(e)
  {
    if results != [] {
      var front := results[..|results| - 1];
      EventIsListed(front, e);
      if i :| 0 <= i < |front| && front[i] == Matched(e) { assert results[i] == Matched(e); }
      if i :| 0 <= i < |results| && results[i] == Matched(e) { assert i < |front| ==> front[i] == Matched(e); }
    }
  }

  /** The event can stand on some report and some estimate of the tables. */
  predicate Stands(e: Event, actuals: seq<Row>, history: seq<Row>, r: Rules) {
    exists a, v | 0 <= a < |actuals| && 0 <= v < |history| :: StandsOn(e, actuals, a, history, v, r)
  }

  lemma {:induction false} EventTells(e: Event, actuals: seq<Row>, history: seq<Row>, r: Rules)
    requires TotalOrder(r.le) && HaveRows(Keys(actuals, r), actuals, r)
    ensures e in EventsOf(PrimaryResults(Keys(actuals, r), actuals, history, r)) <==> Stands(e, actuals, history, r)
  {
    var keys := Keys(actuals, r);
    var results := PrimaryResults(keys, actuals, history, r);
    EventIsListed(results, e);
    if i :| 0 <= i < |results| && results[i] == Matched(e) {
      var a, v := EventStands(e, keys[i], actuals, history, r);
    }
    if a, v :| 0 <= a < |actuals| && 0 <= v < |history| && StandsOn(e, actuals, a, history, v, r) {
      StandingIsMatched(e, actuals, a, history, v, r);
      KeyHasMembers(actuals, KeyBy(r), Some(e.key));
      SortMembers(KeyList(actuals, KeyBy(r)), r.le, Some(e.key));
      var i :| 0 <= i < |keys| && keys[i] == Some(e.key);
      assert results[i] == Matched(e);
    }
  }

  /** Both matchers report exactly the events that stand on two rows of the tables. */
  lemma {:induction false} EventsTell(actuals: seq<Row>, history: seq<Row>, r: Rules)
    requires TotalOrder(r.le)
    ensures HaveRows(Keys(actuals, r), actuals, r)
    ensures forall e :: e in EventsOf(PrimaryResults(Keys(actuals, r), actuals, history, r))
                        <==> Stands(e, actuals, history, r)
    ensures forall e :: e in EventsOf(ReferenceResults(Keys(actuals, r), actuals, history, r))
                        <==> Stands(e, actuals, history, r)
  {
    MatchersAgree(actuals, history, r);
    forall e ensures e in EventsOf(PrimaryResults(Keys(actuals, r), actuals, history, r))
                     <==> Stands(e, actuals, history, r)
    {
      EventTells(e, actuals, history, r);
    }
  }

  lemma {:induction false} EventsFollowKeys(keys: seq<Option<Key>>, results: seq<Result>, i: nat) returns (at: nat)
    requires |keys| == |results| && i < |EventsOf(results)|
    requires forall n | 0 <= n < |results| && results[n].Matched? :: keys[n] == Some(results[n].event.key)
    ensures at < |keys| && keys[at] == Some(EventsOf(results)[i].key) && |EventsOf(results[..at])| == i
  {
    var n := |results| - 1;
    if i < |EventsOf(results[..n])| {
      at := EventsFollowKeys(keys[..n], results[..n], i);
      assert results[..n][..at] == results[..at];
    } else {
      at := n;
    }
  }

  lemma {:induction false} MoreResults(results: seq<Result>, m: nat, n: nat)
    requires m <= n <= |results|
    ensures |EventsOf(results[..m])| <= |EventsOf(results[..n])|
  {
    if m < n {
      MoreResults(results, m, n - 1);
      OneMoreResult(results, n - 1);
    }
  }

  /** The events come in the order of their keys, each key once. */
  lemma {:induction false} EventsInOrder(actuals: seq<Row>, history: seq<Row>, r: Rules, i: nat, j: nat)
    requires TotalOrder(r.le) && HaveRows(Keys(actuals, r), actuals, r)
    requires i < j < |EventsOf(PrimaryResults(Keys(actuals, r), actuals, history, r))|
    ensures var events := EventsOf(PrimaryResults(Keys(actuals, r), actuals, history, r));
      events[i].key != events[j].key && r.le(Some(events[i].key), Some(events[j].key))
  {
    var keys := Keys(actuals, r);
    var results := PrimaryResults(keys, actuals, history, r);
    forall n | 0 <= n < |results| && results[n].Matched? ensures keys[n] == Some(results[n].event.key) {
      var a, v := EventStands(results[n].event, keys[n], actuals, history, r);
    }
    var p := EventsFollowKeys(keys, results, i);
    var q := EventsFollowKeys(keys, results, j);
    if q <= p { MoreResults(results, q, p); }
    KeysAreDistinct(actuals, KeyBy(r));
    DistinctSort(KeyList(actuals, KeyBy(r)), r.le);
    SortSorts(KeyList(actuals, KeyBy(r)), r.le);
  }
}
