/** Matching reported actuals to their consensus: the two independent implementations, and how far they agree. */
module Consensus {
  import opened Optional
  import opened Texts
  import opened Documents
  import opened Dates
  import opened Rounding
  import opened Vintages

  datatype Key = Key(ticker: string, periodEnd: string, periodType: string)

  datatype Clock = Clock(hour: nat, minute: nat, second: nat)

  /** What the matchers are given: the field names of the table, the tolerance, and the text and clock
      functions of the standard library they call. */
  datatype Rules = Rules(
    actual: string, adjustment: string, mean: string, count: string,
    tolerance: real,
    upper: string -> string,
    shown: Value -> string,
    clock: string -> Option<Clock>,
    instant: (int, Clock) -> string,
    le: (Option<Key>, Option<Key>) -> bool)

  datatype Reason =
    | InvalidEventKey | DuplicateActualKey | NonQuarterlyPeriod
    | InvalidReportTimestamp | InvalidReportTime | InvalidReportCode | ReportTimeCodeMismatch
    | MissingCurrency | NonUsdCurrency
    | NonFiniteActual | NonFiniteTableConsensus | TooFewTableAnalysts
    | InvalidReportDate | MissingPriorConsensus | DuplicateLatestVintage
    | NonFiniteVintageConsensus | TooFewVintageAnalysts
    | ConsensusCurrencyMissing | ConsensusCurrencyMismatch | TickerMismatch | CrossCheckMismatch

  datatype Event = Event(
    key: Key, ticker: string, currency: string, reportDay: int, announcedAt: string, time: Value, code: string,
    actual: real, adjustment: Option<real>, consensus: real, consensusDay: int, analysts: int,
    tableConsensus: real, tableAnalysts: int, difference: real, error: real)

  datatype Exclusion = Exclusion(key: (Value, Value, Value), ticker: Value, reasons: set<Reason>)

  datatype Result = Matched(event: Event) | Excluded(exclusion: Exclusion)

  // ----- reading a row -----

  function Code(v: Value, r: Rules): string
    requires v.Text?
  {
    r.upper(Strip(v.text))
  }

  predicate Present(v: Value) { v.Text? && !Blank(v.text) }

  function EventKey(row: Row, r: Rules): Option<Key> {
    var identifier, end, kind := Get(row, "m_ticker"), Get(row, "per_end_date"), Get(row, "per_type");
    if Present(identifier) && Present(end) && Present(kind) && IsoDay(end).Some?
    then Some(Key(Code(identifier, r), end.text, Code(kind, r))) else None
  }

  function KeyBy(r: Rules): Row -> Option<Key> { row => EventKey(row, r) }

  function KeyPayload(key: Option<Key>, row: Row): (Value, Value, Value) {
    match key
    case Some(k) => (Text(k.ticker), Text(k.periodEnd), Text(k.periodType))
    case None => (Get(row, "m_ticker"), Get(row, "per_end_date"), Get(row, "per_type"))
  }

  function Ticker(row: Row, r: Rules): string {
    r.upper(Strip(if "ticker" !in row then "" else if row["ticker"].Text? then row["ticker"].text
                  else r.shown(row["ticker"])))
  }

  function ReportDay(row: Row): Option<int> { IsoDay(Get(row, "act_rpt_date")) }

  function Analysts(v: Value): Option<int> { if v.Whole? && v.whole >= 2 then Some(v.whole) else None }

  datatype Stamp = At(instant: string) | Faulty(reason: Reason)

  /** The announcement instant: a date, a clock time, and a session code that fits the time. */
  function Announcement(row: Row, r: Rules): Stamp {
    var time, code := Get(row, "act_rpt_time"), Get(row, "act_rpt_code");
    if ReportDay(row).None? || !time.Text? || !code.Text? then Faulty(InvalidReportTimestamp)
    else match r.clock(time.text)
      case None => Faulty(InvalidReportTime)
      case Some(c) =>
        var minute := c.hour * 60 + c.minute;
        if Code(code, r) !in {"BTO", "DTM", "AMC"} then Faulty(InvalidReportCode)
        else if (Code(code, r) == "BTO" && minute < 570) || (Code(code, r) == "DTM" && 570 <= minute < 960)
                || (Code(code, r) == "AMC" && minute >= 960)
        then At(r.instant(ReportDay(row).value, c)) else Faulty(ReportTimeCodeMismatch)
  }

  // ----- reasons -----

  /** One test and the reason it raises. */
  datatype Check = Check(raised: bool, reason: Reason)

  const CHECKS := 18

  /** The reasons raised by the tests, as the set they are reported as. */
  function Raised(check: int -> Check): set<Reason> {
    set i | 0 <= i < CHECKS && check(i).raised :: check(i).reason
  }

  lemma Quiet(check: int -> Check, i: int)
    requires Raised(check) == {} && 0 <= i < CHECKS
    ensures !check(i).raised
  {
    assert check(i).raised ==> check(i).reason in Raised(check);
  }

  lemma Loud(check: int -> Check, i: int)
    requires 0 <= i < CHECKS && check(i).raised
    ensures check(i).reason in Raised(check)
  {}

  lemma SameRaised(a: int -> Check, b: int -> Check)
    requires forall i | 0 <= i < CHECKS :: a(i) == b(i)
    ensures Raised(a) == Raised(b)
  {}

  /** What both implementations read off the actual's row. */
  datatype Reading = Reading(
    stamp: Stamp, currency: Value, actual: Option<real>, mean: Option<real>, count: Option<int>, ticker: string)

  function ReadActual(row: Row, r: Rules): Reading {
    Reading(Announcement(row, r), Get(row, "currency_code"), Number(Get(row, r.actual)), Number(Get(row, r.mean)),
            Analysts(Get(row, r.count)), Ticker(row, r))
  }

  /** And off the vintage. */
  datatype Estimate = Estimate(currency: Value, mean: Option<real>, count: Option<int>, ticker: string)

  function ReadVintage(row: Row, r: Rules): Estimate {
    Estimate(Get(row, "currency_code"), Number(Get(row, r.mean)), Analysts(Get(row, r.count)), Ticker(row, r))
  }

  /** The estimate of the one vintage found, if exactly one was. */
  function Found(choice: Option<Choice>, r: Rules): Option<Estimate> {
    if choice.Some? && choice.value.Chosen? then Some(ReadVintage(choice.value.row, r)) else None
  }

  predicate FailsCrossCheck(a: Reading, e: Option<Estimate>, tolerance: real) {
    a.mean.Some? && e.Some? && e.value.mean.Some? && Abs(a.mean.value - e.value.mean.value) > tolerance
  }

  function StampCheck(stamp: Stamp): Check {
    match stamp
    case Faulty(reason) => Check(true, reason)
    case At(_) => Check(false, InvalidReportTimestamp)
  }

  /** The event of a complete reading. */
  function EventOf(key: Key, row: Row, a: Reading, currency: string, day: int, e: Estimate, on: int, r: Rules): Event
    requires a.stamp.At? && a.actual.Some? && a.mean.Some? && a.count.Some? && e.mean.Some? && e.count.Some?
    requires Get(row, "act_rpt_code").Text?
  {
    Event(key, a.ticker, currency, day, a.stamp.instant, Get(row, "act_rpt_time"), Code(Get(row, "act_rpt_code"), r),
          a.actual.value, Number(Get(row, r.adjustment)), e.mean.value, on, e.count.value, a.mean.value, a.count.value,
          Abs(a.mean.value - e.mean.value), a.actual.value - e.mean.value)
  }

  // ----- the first implementation -----

  predicate CodesDiffer(a: Value, b: Value, r: Rules) { a.Text? && b.Text? && Code(a, r) != Code(b, r) }

  function PrimaryChecks(key: Option<Key>, several: bool, a: Reading, choice: Option<Choice>, e: Option<Estimate>,
                         r: Rules): int -> Check
  {
    (i: int) => match i
      case 0 => Check(key.None?, InvalidEventKey)
      case 1 => Check(several, DuplicateActualKey)
      case 2 => Check(key.Some? && key.value.periodType != "Q", NonQuarterlyPeriod)
      case 3 => StampCheck(a.stamp)
      case 4 => Check(!Present(a.currency), MissingCurrency)
      case 5 => Check(Present(a.currency) && Code(a.currency, r) != "USD", NonUsdCurrency)
      case 6 => Check(a.actual.None?, NonFiniteActual)
      case 7 => Check(a.mean.None?, NonFiniteTableConsensus)
      case 8 => Check(a.count.None?, TooFewTableAnalysts)
      case 9 => Check(choice.None?, InvalidReportDate)
      case 10 => Check(choice == Some(Absent), MissingPriorConsensus)
      case 11 => Check(choice == Some(Ambiguous), DuplicateLatestVintage)
      case 12 => Check(e.Some? && e.value.mean.None?, NonFiniteVintageConsensus)
      case 13 => Check(e.Some? && e.value.count.None?, TooFewVintageAnalysts)
      case 14 => Check(e.Some? && (!e.value.currency.Text? || !a.currency.Text?), ConsensusCurrencyMissing)
      case 15 => Check(e.Some? && CodesDiffer(e.value.currency, a.currency, r), ConsensusCurrencyMismatch)
      case 16 => Check(e.Some? && (e.value.ticker == "" || e.value.ticker != a.ticker), TickerMismatch)
      case _ => Check(FailsCrossCheck(a, e, r.tolerance), CrossCheckMismatch)
  }

  function PrimaryReasons(key: Option<Key>, rows: seq<Row>, choice: Option<Choice>, r: Rules): set<Reason>
    requires rows != []
  {
    Raised(PrimaryChecks(key, |rows| != 1, ReadActual(rows[0], r), choice, Found(choice, r), r))
  }

  function PrimaryResult(key: Option<Key>, rows: seq<Row>, choice: Option<Choice>, r: Rules): Result
    requires rows != []
    requires choice.Some? && choice.value.Chosen? ==> ObservedOn(choice.value.row).Some?
  {
    var row, reasons := rows[0], PrimaryReasons(key, rows, choice, r);
    if reasons != {} then Excluded(Exclusion(KeyPayload(key, row), Get(row, "ticker"), reasons))
    else
      NoReasonMeansComplete(key, rows, choice, r);
      Matched(EventOf(key.value, row, ReadActual(row, r), Code(Get(row, "currency_code"), r), ReportDay(row).value,
                      ReadVintage(choice.value.row, r), ObservedOn(choice.value.row).value, r))
  }

  /** Everything an event is made of is there. */
  predicate Complete(key: Option<Key>, row: Row, choice: Option<Choice>, r: Rules) {
    && key.Some? && choice.Some? && choice.value.Chosen?
    && CompleteReading(ReadActual(row, r), ReadVintage(choice.value.row, r))
    && ReportDay(row).Some? && Get(row, "act_rpt_code").Text? && CurrencyOf(row, r).Some?
  }

  predicate CompleteReading(a: Reading, e: Estimate) {
    a.stamp.At? && a.actual.Some? && a.mean.Some? && a.count.Some? && e.mean.Some? && e.count.Some?
  }

  /** With no reason left every field the event needs is there: the assertions before the record hold. */
  lemma NoReasonMeansComplete(key: Option<Key>, rows: seq<Row>, choice: Option<Choice>, r: Rules)
    requires rows != [] && PrimaryReasons(key, rows, choice, r) == {}
    ensures Complete(key, rows[0], choice, r)
  {
    var a, e := ReadActual(rows[0], r), Found(choice, r);
    PrimaryQuiet(key, |rows| != 1, a, choice, e, r);
    StampPassed(rows[0], r);
  }

  lemma PrimaryQuiet(key: Option<Key>, several: bool, a: Reading, choice: Option<Choice>, e: Option<Estimate>, r: Rules)
    requires Raised(PrimaryChecks(key, several, a, choice, e, r)) == {}
    requires e.Some? <==> choice.Some? && choice.value.Chosen?
    ensures key.Some? && e.Some? && CompleteReading(a, e.value) && Present(a.currency)
  {
    var c := PrimaryChecks(key, several, a, choice, e, r);
    Quiet(c, 0); Quiet(c, 3); Quiet(c, 4); Quiet(c, 6); Quiet(c, 7); Quiet(c, 8);
    Quiet(c, 9); Quiet(c, 10); Quiet(c, 11); Quiet(c, 12); Quiet(c, 13);
    assert c(3) == StampCheck(a.stamp);
  }

  /** A row with an announcement instant has a report date and a session code. */
  lemma StampPassed(row: Row, r: Rules)
    requires Announcement(row, r).At?
    ensures ReportDay(row).Some? && Get(row, "act_rpt_code").Text?
  {}

  // ----- the second implementation -----

  /** The currency, or nothing when the field is missing, blank or no text. */
  function CurrencyOf(row: Row, r: Rules): Option<string> { CurrencyRead(Get(row, "currency_code"), r) }

  function CurrencyRead(v: Value, r: Rules): Option<string> { if Present(v) then Some(Code(v, r)) else None }

  predicate CodeIsNot(v: Value, currency: Option<string>, r: Rules) {
    v.Text? && currency.Some? && Code(v, r) != currency.value
  }

  function ReferenceChecks(key: Option<Key>, several: bool, a: Reading, currency: Option<string>,
                           choice: Option<Choice>, e: Option<Estimate>, r: Rules): int -> Check
  {
    (i: int) => match i
      case 0 => Check(key.None?, InvalidEventKey)
      case 1 => Check(several, DuplicateActualKey)
      case 2 => Check(key.Some? && key.value.periodType != "Q", NonQuarterlyPeriod)
      case 3 => StampCheck(a.stamp)
      case 4 => Check(currency.None?, MissingCurrency)
      case 5 => Check(currency.Some? && currency.value != "USD", NonUsdCurrency)
      case 6 => Check(a.actual.None?, NonFiniteActual)
      case 7 => Check(a.mean.None?, NonFiniteTableConsensus)
      case 8 => Check(a.count.None?, TooFewTableAnalysts)
      case 9 => Check(choice.None?, InvalidReportDate)
      case 10 => Check(choice == Some(Absent), MissingPriorConsensus)
      case 11 => Check(choice == Some(Ambiguous), DuplicateLatestVintage)
      case 12 => Check(e.Some? && e.value.mean.None?, NonFiniteVintageConsensus)
      case 13 => Check(e.Some? && e.value.count.None?, TooFewVintageAnalysts)
      case 14 => Check(e.Some? && (!e.value.currency.Text? || currency.None?), ConsensusCurrencyMissing)
      case 15 => Check(e.Some? && CodeIsNot(e.value.currency, currency, r), ConsensusCurrencyMismatch)
      case 16 => Check(e.Some? && (a.ticker == "" || a.ticker != e.value.ticker), TickerMismatch)
      case _ => Check(FailsCrossCheck(a, e, r.tolerance), CrossCheckMismatch)
  }

  function ReferenceProblems(key: Option<Key>, rows: seq<Row>, choice: Option<Choice>, r: Rules): set<Reason>
    requires rows != []
  {
    Raised(ReferenceChecks(key, |rows| != 1, ReadActual(rows[0], r), CurrencyOf(rows[0], r), choice, Found(choice, r),
                           r))
  }

  function ReferenceResult(key: Option<Key>, rows: seq<Row>, choice: Option<Choice>, r: Rules): Result
    requires rows != []
  {
    var row, problems := rows[0], ReferenceProblems(key, rows, choice, r);
    if problems != {} then Excluded(Exclusion(KeyPayload(key, row), Get(row, "ticker"), problems))
    else
      NoProblemMeansComplete(key, rows, choice, r);
      Matched(EventOf(key.value, row, ReadActual(row, r), CurrencyOf(row, r).value, ReportDay(row).value,
                      ReadVintage(choice.value.row, r), choice.value.on, r))
  }

  lemma NoProblemMeansComplete(key: Option<Key>, rows: seq<Row>, choice: Option<Choice>, r: Rules)
    requires rows != [] && ReferenceProblems(key, rows, choice, r) == {}
    ensures Complete(key, rows[0], choice, r)
  {
    ReferenceQuiet(key, |rows| != 1, ReadActual(rows[0], r), CurrencyOf(rows[0], r), choice, Found(choice, r), r);
    StampPassed(rows[0], r);
  }

  lemma ReferenceQuiet(key: Option<Key>, several: bool, a: Reading, currency: Option<string>, choice: Option<Choice>,
                       e: Option<Estimate>, r: Rules)
    requires Raised(ReferenceChecks(key, several, a, currency, choice, e, r)) == {}
    requires e.Some? <==> choice.Some? && choice.value.Chosen?
    ensures key.Some? && e.Some? && CompleteReading(a, e.value) && currency.Some?
  {
    var c := ReferenceChecks(key, several, a, currency, choice, e, r);
    Quiet(c, 0); Quiet(c, 3); Quiet(c, 4); Quiet(c, 6); Quiet(c, 7); Quiet(c, 8);
    Quiet(c, 9); Quiet(c, 10); Quiet(c, 11); Quiet(c, 12); Quiet(c, 13);
    assert c(3) == StampCheck(a.stamp);
  }

  // ----- how far the two agree -----

  /** The actual's currency is a blank text while the vintage's is some text. */
  predicate BlankCurrency(row: Row, choice: Option<Choice>) {
    && choice.Some? && choice.value.Chosen? && Get(choice.value.row, "currency_code").Text?
    && Get(row, "currency_code").Text? && Blank(Get(row, "currency_code").text)
  }

  /** The same, of the two currency fields. */
  predicate BlankAgainstText(currency: Value, e: Option<Estimate>) {
    e.Some? && e.value.currency.Text? && currency.Text? && Blank(currency.text)
  }

  /** Test by test the two implementations ask the same, but for a blank currency. */
  lemma ChecksAgree(key: Option<Key>, several: bool, a: Reading, choice: Option<Choice>, e: Option<Estimate>,
                    r: Rules, i: int)
    requires 0 <= i < CHECKS && (i == 14 || i == 15 ==> !BlankAgainstText(a.currency, e))
    ensures PrimaryChecks(key, several, a, choice, e, r)(i)
      == ReferenceChecks(key, several, a, CurrencyRead(a.currency, r), choice, e, r)(i)
  {
    if i == 14 || i == 15 { CurrencyTestsAgree(key, several, a, choice, e, r); }
    else if i < 9 { OwnTestsAgree(key, several, a, choice, e, r, i); }
    else { OtherTestsAgree(key, several, a, choice, e, r, i); }
  }

  lemma OwnTestsAgree(key: Option<Key>, several: bool, a: Reading, choice: Option<Choice>, e: Option<Estimate>,
                      r: Rules, i: int)
    requires 0 <= i < 9
    ensures PrimaryChecks(key, several, a, choice, e, r)(i)
      == ReferenceChecks(key, several, a, CurrencyRead(a.currency, r), choice, e, r)(i)
  {}

  lemma OtherTestsAgree(key: Option<Key>, several: bool, a: Reading, choice: Option<Choice>, e: Option<Estimate>,
                        r: Rules, i: int)
    requires 9 <= i < CHECKS && i != 14 && i != 15
    ensures PrimaryChecks(key, several, a, choice, e, r)(i)
      == ReferenceChecks(key, several, a, CurrencyRead(a.currency, r), choice, e, r)(i)
  {}

  lemma CurrencyTestsAgree(key: Option<Key>, several: bool, a: Reading, choice: Option<Choice>, e: Option<Estimate>,
                           r: Rules)
    requires !BlankAgainstText(a.currency, e)
    ensures PrimaryChecks(key, several, a, choice, e, r)(14)
      == ReferenceChecks(key, several, a, CurrencyRead(a.currency, r), choice, e, r)(14)
    ensures PrimaryChecks(key, several, a, choice, e, r)(15)
      == ReferenceChecks(key, several, a, CurrencyRead(a.currency, r), choice, e, r)(15)
  {
    if e.Some? { CurrencyReadings(e.value.currency, a.currency, r); }
  }

  lemma CurrencyReadings(other: Value, mine: Value, r: Rules)
    requires other.Text? && mine.Text? ==> !Blank(mine.text)
    ensures !other.Text? || !mine.Text? <==> !other.Text? || CurrencyRead(mine, r).None?
    ensures CodesDiffer(other, mine, r) <==> CodeIsNot(other, CurrencyRead(mine, r), r)
  {}

  /** Under a blank currency only the second implementation reports the consensus currency as missing. */
  lemma BlankIsReadDifferently(key: Option<Key>, several: bool, a: Reading, choice: Option<Choice>,
                               e: Option<Estimate>, r: Rules)
    requires BlankAgainstText(a.currency, e)
    requires a.stamp.Faulty? ==> a.stamp.reason != ConsensusCurrencyMissing
    ensures var mine, theirs := Raised(PrimaryChecks(key, several, a, choice, e, r)),
                                Raised(ReferenceChecks(key, several, a, CurrencyRead(a.currency, r), choice, e, r));
      && ConsensusCurrencyMissing !in mine && ConsensusCurrencyMissing in theirs
      && MissingCurrency in mine && MissingCurrency in theirs
  {
    var c, d := PrimaryChecks(key, several, a, choice, e, r),
        ReferenceChecks(key, several, a, CurrencyRead(a.currency, r), choice, e, r);
    Loud(c, 4);
    Loud(d, 4);
    Loud(d, 14);
    assert c(3) == StampCheck(a.stamp);
    forall i | 0 <= i < CHECKS && i != 3 ensures c(i).raised ==> c(i).reason != ConsensusCurrencyMissing {}
  }

  lemma StampSaysNothingOfCurrency(row: Row, r: Rules)
    ensures Announcement(row, r).Faulty? ==> Announcement(row, r).reason != ConsensusCurrencyMissing
  {}

  /** The verdicts on one event: the same event with the same values, or exclusions of the same row, whose
      reasons are the same exactly when the currency is not blank. */
  lemma ResultsAgree(key: Option<Key>, rows: seq<Row>, choice: Option<Choice>, r: Rules)
    requires rows != []
    requires choice.Some? && choice.value.Chosen? ==> ObservedOn(choice.value.row) == Some(choice.value.on)
    ensures var mine, theirs := PrimaryResult(key, rows, choice, r), ReferenceResult(key, rows, choice, r);
      && (mine.Matched? <==> theirs.Matched?)
      && (mine.Matched? ==> mine == theirs)
      && (mine.Excluded? ==>
          mine.exclusion.key == theirs.exclusion.key && mine.exclusion.ticker == theirs.exclusion.ticker)
      && (mine == theirs <==> !BlankCurrency(rows[0], choice))
  {
    ReasonsAgree(key, rows, choice, r);
    if !BlankCurrency(rows[0], choice) && PrimaryReasons(key, rows, choice, r) == {} {
      NoReasonMeansComplete(key, rows, choice, r);
    }
  }

  /** The reasons are the same exactly when the currency is not blank; when it is, both have some. */
  lemma ReasonsAgree(key: Option<Key>, rows: seq<Row>, choice: Option<Choice>, r: Rules)
    requires rows != []
    ensures PrimaryReasons(key, rows, choice, r) == ReferenceProblems(key, rows, choice, r)
      <==> !BlankCurrency(rows[0], choice)
    ensures BlankCurrency(rows[0], choice) ==>
      PrimaryReasons(key, rows, choice, r) != {} && ReferenceProblems(key, rows, choice, r) != {}
  {
    StampSaysNothingOfCurrency(rows[0], r);
    ReadingsAgree(key, |rows| != 1, ReadActual(rows[0], r), choice, Found(choice, r), r);
  }

  /** Such a pair of rows: a blank currency against the dollar, under any key, day and rules. */
  lemma BlankAgainstDollar(key: Option<Key>, day: int, r: Rules)
    ensures var rows: seq<Row> := [map["currency_code" := Text(" ")]];
      var vintage: Row := map["currency_code" := Text("USD")];
      var choice := Some(Chosen(vintage, day));
      BlankCurrency(rows[0], choice) && PrimaryReasons(key, rows, choice, r) != ReferenceProblems(key, rows, choice, r)
  {
    var rows: seq<Row>, vintage: Row := [map["currency_code" := Text(" ")]], map["currency_code" := Text("USD")];
    ReasonsAgree(key, rows, Some(Chosen(vintage, day)), r);
    assert Blank(" ");
  }

  lemma ReadingsAgree(key: Option<Key>, several: bool, a: Reading, choice: Option<Choice>, e: Option<Estimate>,
                      r: Rules)
    requires a.stamp.Faulty? ==> a.stamp.reason != ConsensusCurrencyMissing
    ensures var mine, theirs := Raised(PrimaryChecks(key, several, a, choice, e, r)),
                                Raised(ReferenceChecks(key, several, a, CurrencyRead(a.currency, r), choice, e, r));
      && (mine == theirs <==> !BlankAgainstText(a.currency, e))
      && (BlankAgainstText(a.currency, e) ==> mine != {} && theirs != {})
  {
    if BlankAgainstText(a.currency, e) {
      BlankIsReadDifferently(key, several, a, choice, e, r);
      OneMore(Raised(PrimaryChecks(key, several, a, choice, e, r)),
              Raised(ReferenceChecks(key, several, a, CurrencyRead(a.currency, r), choice, e, r)));
    } else {
      AllChecksAgree(key, several, a, choice, e, r);
    }
  }

  lemma OneMore(mine: set<Reason>, theirs: set<Reason>)
    requires ConsensusCurrencyMissing !in mine && ConsensusCurrencyMissing in theirs && MissingCurrency in mine
    ensures mine != theirs && mine != {} && theirs != {}
  {}

  lemma AllChecksAgree(key: Option<Key>, several: bool, a: Reading, choice: Option<Choice>, e: Option<Estimate>,
                       r: Rules)
    requires !BlankAgainstText(a.currency, e)
    ensures Raised(PrimaryChecks(key, several, a, choice, e, r))
      == Raised(ReferenceChecks(key, several, a, CurrencyRead(a.currency, r), choice, e, r))
  {
    var c, d := PrimaryChecks(key, several, a, choice, e, r),
        ReferenceChecks(key, several, a, CurrencyRead(a.currency, r), choice, e, r);
    forall i | 0 <= i < CHECKS ensures c(i) == d(i) { ChecksAgree(key, several, a, choice, e, r, i); }
    SameRaised(c, d);
  }
}
