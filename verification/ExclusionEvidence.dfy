/** What an exclusion rests on: every reason it gives is shown by the report or by the estimate looked up for it, and
    every reason they show is given. */
module ExclusionEvidence {
  import opened Optional
  import opened Documents
  import opened Dates
  import opened Grouping
  import opened Vintages
  import opened Consensus
  import opened Matching
  import opened EventEvidence

  // ----- the reasons of an exclusion -----

  predicate NumberMissing(row: Row, name: string) {
    name !in row || (!row[name].Whole? && !row[name].Float?)
  }

  predicate CountMissing(row: Row, name: string) { name !in row || !row[name].Whole? || row[name].whole < 2 }

  predicate KeyMissing(row: Row) {
    || !FilledIn(row, "m_ticker") || !FilledIn(row, "per_end_date") || !FilledIn(row, "per_type")
    || IsoDay(row["per_end_date"]).None?
  }

  predicate DayMissing(row: Row, name: string) { name !in row || IsoDay(row[name]).None? }

  predicate StampMissing(row: Row) {
    DayMissing(row, "act_rpt_date") || !TextIn(row, "act_rpt_time") || !TextIn(row, "act_rpt_code")
  }

  predicate StampReads(row: Row, r: Rules) { !StampMissing(row) && r.clock(row["act_rpt_time"].text).Some? }

  /** The report, or the latest estimate, shows the reason. The two implementations ask differently whether the
      report's currency is `known`: to the first any text will do, to the second no blank one. */
  predicate Shows(reason: Reason, row: Row, several: bool, choice: Option<Choice>, known: bool, r: Rules)
    requires known ==> TextIn(row, "currency_code")
  {
    match reason
    case InvalidEventKey => KeyMissing(row)
    case DuplicateActualKey => several
    case NonQuarterlyPeriod => !KeyMissing(row) && CodeIn(row, "per_type", r) != "Q"
    case InvalidReportTimestamp => StampMissing(row)
    case InvalidReportTime => !StampMissing(row) && r.clock(row["act_rpt_time"].text).None?
    case InvalidReportCode => StampReads(row, r) && CodeIn(row, "act_rpt_code", r) !in {"BTO", "DTM", "AMC"}
    case ReportTimeCodeMismatch =>
      && StampReads(row, r) && CodeIn(row, "act_rpt_code", r) in {"BTO", "DTM", "AMC"}
      && !SessionFits(CodeIn(row, "act_rpt_code", r), r.clock(row["act_rpt_time"].text).value)
    case MissingCurrency => !FilledIn(row, "currency_code")
    case NonUsdCurrency => FilledIn(row, "currency_code") && CodeIn(row, "currency_code", r) != "USD"
    case NonFiniteActual => NumberMissing(row, r.actual)
    case NonFiniteTableConsensus => NumberMissing(row, r.mean)
    case TooFewTableAnalysts => CountMissing(row, r.count)
    case InvalidReportDate => KeyMissing(row) || DayMissing(row, "act_rpt_date")
    case MissingPriorConsensus => choice == Some(Absent)
    case DuplicateLatestVintage => choice == Some(Ambiguous)
    case _ => choice.Some? && choice.value.Chosen? && Clash(reason, row, choice.value.row, known, r)
  }

  /** The estimate clashes with the report. */
  predicate Clash(reason: Reason, row: Row, v: Row, known: bool, r: Rules)
    requires known ==> TextIn(row, "currency_code")
  {
    match reason
    case NonFiniteVintageConsensus => NumberMissing(v, r.mean)
    case TooFewVintageAnalysts => CountMissing(v, r.count)
    case ConsensusCurrencyMissing => !TextIn(v, "currency_code") || !known
    case ConsensusCurrencyMismatch =>
      && TextIn(v, "currency_code") && known
      && CodeIn(v, "currency_code", r) != CodeIn(row, "currency_code", r)
    case TickerMismatch => TickerIn(v, "", r) || !TickerIn(v, Ticker(row, r), r)
    case CrossCheckMismatch =>
      && !NumberMissing(row, r.mean) && !NumberMissing(v, r.mean)
      && (ReadNumber(row, r.mean) - ReadNumber(v, r.mean) > r.tolerance
          || ReadNumber(v, r.mean) - ReadNumber(row, r.mean) > r.tolerance)
    case _ => false
  }

  function ReadNumber(row: Row, name: string): real
    requires !NumberMissing(row, name)
  {
    if row[name].Whole? then row[name].whole as real else row[name].number
  }

  /** Which test raises a reason. */
  function TestOf(reason: Reason): int {
    match reason
    case InvalidEventKey => 0 case DuplicateActualKey => 1 case NonQuarterlyPeriod => 2
    case InvalidReportTimestamp | InvalidReportTime | InvalidReportCode | ReportTimeCodeMismatch => 3
    case MissingCurrency => 4 case NonUsdCurrency => 5 case NonFiniteActual => 6
    case NonFiniteTableConsensus => 7 case TooFewTableAnalysts => 8 case InvalidReportDate => 9
    case MissingPriorConsensus => 10 case DuplicateLatestVintage => 11 case NonFiniteVintageConsensus => 12
    case TooFewVintageAnalysts => 13 case ConsensusCurrencyMissing => 14 case ConsensusCurrencyMismatch => 15
    case TickerMismatch => 16 case CrossCheckMismatch => 17
  }

  /** Every test raises reasons of its own. */
  predicate Numbered(check: int -> Check) {
    forall i | 0 <= i < CHECKS && check(i).raised :: TestOf(check(i).reason) == i
  }

  lemma OneTest(check: int -> Check, reason: Reason)
    requires Numbered(check)
    ensures reason in Raised(check) <==> check(TestOf(reason)).raised && check(TestOf(reason)).reason == reason
  {
    if check(TestOf(reason)).raised { Loud(check, TestOf(reason)); }
  }

  lemma {:induction false} TestsAreNumbered(k: Option<Key>, several: bool, a: Reading, choice: Option<Choice>,
                                            v: Option<Estimate>, r: Rules)
    requires a.stamp.Faulty? ==> TestOf(a.stamp.reason) == 3
    ensures Numbered(PrimaryChecks(k, several, a, choice, v, r))
  {
    assert PrimaryChecks(k, several, a, choice, v, r)(3) == StampCheck(a.stamp);
  }

  lemma {:induction false} ReferenceIsNumbered(k: Option<Key>, several: bool, a: Reading, choice: Option<Choice>,
                                               v: Option<Estimate>, r: Rules)
    requires a.stamp.Faulty? ==> TestOf(a.stamp.reason) == 3
    ensures Numbered(ReferenceChecks(k, several, a, CurrencyRead(a.currency, r), choice, v, r))
  {
    assert ReferenceChecks(k, several, a, CurrencyRead(a.currency, r), choice, v, r)(3) == StampCheck(a.stamp);
  }

  lemma StampTells(row: Row, r: Rules, reason: Reason)
    requires TestOf(reason) == 3
    ensures Announcement(row, r) == Faulty(reason) <==> Shows(reason, row, false, None, false, r)
    ensures Announcement(row, r).Faulty? ==> TestOf(Announcement(row, r).reason) == 3
  {
  }

  lemma {:induction false} OwnReasonTells(k: Option<Key>, row: Row, several: bool, choice: Option<Choice>, known: bool,
                                          r: Rules, reason: Reason)
    requires EventKey(row, r) == k && (choice.None? <==> k.None? || ReportDay(row).None?)
    requires TestOf(reason) != 3 && TestOf(reason) < 12 && (known ==> TextIn(row, "currency_code"))
    ensures PrimaryChecks(k, several, ReadActual(row, r), choice, Found(choice, r), r)(TestOf(reason))
         == Check(Shows(reason, row, several, choice, known, r), reason)
  {
    if TestOf(reason) < 6 {
      FirstReasonTells(k, row, several, choice, known, r, reason);
    } else if TestOf(reason) < 9 {
      NumberReasonTells(k, row, several, choice, known, r, reason);
    } else {
      DateReasonTells(k, row, several, choice, known, r, reason);
    }
  }

  lemma {:induction false} FirstReasonTells(k: Option<Key>, row: Row, several: bool, choice: Option<Choice>,
                                            known: bool, r: Rules, reason: Reason)
    requires EventKey(row, r) == k
    requires TestOf(reason) != 3 && TestOf(reason) < 6 && (known ==> TextIn(row, "currency_code"))
    ensures PrimaryChecks(k, several, ReadActual(row, r), choice, Found(choice, r), r)(TestOf(reason))
         == Check(Shows(reason, row, several, choice, known, r), reason)
  {
    var c := Get(row, "currency_code");
    assert Present(c) <==> FilledIn(row, "currency_code");
    assert c.Text? ==> Code(c, r) == CodeIn(row, "currency_code", r);
    assert k.Some? ==> k.value.periodType == CodeIn(row, "per_type", r);
  }

  lemma {:induction false} NumberReasonTells(k: Option<Key>, row: Row, several: bool, choice: Option<Choice>,
                                             known: bool, r: Rules, reason: Reason)
    requires 6 <= TestOf(reason) < 9 && (known ==> TextIn(row, "currency_code"))
    ensures PrimaryChecks(k, several, ReadActual(row, r), choice, Found(choice, r), r)(TestOf(reason))
         == Check(Shows(reason, row, several, choice, known, r), reason)
  {
  }

  lemma {:induction false} DateReasonTells(k: Option<Key>, row: Row, several: bool, choice: Option<Choice>,
                                           known: bool, r: Rules, reason: Reason)
    requires EventKey(row, r) == k && (choice.None? <==> k.None? || ReportDay(row).None?)
    requires 9 <= TestOf(reason) < 12 && (known ==> TextIn(row, "currency_code"))
    ensures PrimaryChecks(k, several, ReadActual(row, r), choice, Found(choice, r), r)(TestOf(reason))
         == Check(Shows(reason, row, several, choice, known, r), reason)
  {
  }

  /** The same clash, of what is read off the two rows. */
  predicate ClashRead(reason: Reason, a: Reading, v: Estimate, known: bool, r: Rules)
    requires known ==> a.currency.Text?
  {
    match reason
    case NonFiniteVintageConsensus => v.mean.None?
    case TooFewVintageAnalysts => v.count.None?
    case ConsensusCurrencyMissing => !v.currency.Text? || !known
    case ConsensusCurrencyMismatch => known && CodesDiffer(v.currency, a.currency, r)
    case TickerMismatch => v.ticker == "" || v.ticker != a.ticker
    case CrossCheckMismatch => FailsCrossCheck(a, Some(v), r.tolerance)
    case _ => false
  }

  lemma {:induction false} ClashReads(reason: Reason, row: Row, v: Row, known: bool, r: Rules)
    requires TestOf(reason) >= 12 && (known ==> TextIn(row, "currency_code"))
    ensures Clash(reason, row, v, known, r) <==> ClashRead(reason, ReadActual(row, r), ReadVintage(v, r), known, r)
  {
    TickerTells(v, "", r);
    TickerTells(v, Ticker(row, r), r);
  }

  lemma {:induction false} ClashRaised(reason: Reason, k: Option<Key>, several: bool, a: Reading,
                                       choice: Option<Choice>, v: Option<Estimate>, r: Rules)
    requires TestOf(reason) >= 12
    ensures PrimaryChecks(k, several, a, choice, v, r)(TestOf(reason))
         == Check(v.Some? && ClashRead(reason, a, v.value, a.currency.Text?, r), reason)
  {
    assert FailsCrossCheck(a, v, r.tolerance) <==> v.Some? && FailsCrossCheck(a, Some(v.value), r.tolerance);
    if v.Some? {
      assert v == Some(v.value);
      assert CodesDiffer(v.value.currency, a.currency, r)
        <==> ClashRead(ConsensusCurrencyMismatch, a, v.value, a.currency.Text?, r);
    }
  }

  lemma {:induction false} ReferenceClashRaised(reason: Reason, k: Option<Key>, several: bool, a: Reading,
                                                choice: Option<Choice>, v: Option<Estimate>, r: Rules)
    requires TestOf(reason) >= 12
    ensures ReferenceChecks(k, several, a, CurrencyRead(a.currency, r), choice, v, r)(TestOf(reason))
         == Check(v.Some? && ClashRead(reason, a, v.value, Present(a.currency), r), reason)
  {
    if reason == ConsensusCurrencyMissing || reason == ConsensusCurrencyMismatch {
      if v.Some? {
        assert CodeIsNot(v.value.currency, CurrencyRead(a.currency, r), r)
          <==> ClashRead(ConsensusCurrencyMismatch, a, v.value, Present(a.currency), r);
      }
    } else {
      ChecksAgree(k, several, a, choice, v, r, TestOf(reason));
      ClashRaised(reason, k, several, a, choice, v, r);
    }
  }

  lemma {:induction false} ReferenceOwnRaised(reason: Reason, k: Option<Key>, several: bool, a: Reading,
                                              choice: Option<Choice>, v: Option<Estimate>, r: Rules)
    requires TestOf(reason) < 12
    ensures ReferenceChecks(k, several, a, CurrencyRead(a.currency, r), choice, v, r)(TestOf(reason))
         == PrimaryChecks(k, several, a, choice, v, r)(TestOf(reason))
  {
    ChecksAgree(k, several, a, choice, v, r, TestOf(reason));
  }

  lemma {:induction false} StampShows(k: Option<Key>, row: Row, several: bool, choice: Option<Choice>, known: bool,
                                      r: Rules, reason: Reason)
    requires TestOf(reason) == 3 && (known ==> TextIn(row, "currency_code"))
    ensures PrimaryChecks(k, several, ReadActual(row, r), choice, Found(choice, r), r)(3)
         == StampCheck(Announcement(row, r))
    ensures StampCheck(Announcement(row, r)) == Check(true, reason) <==> Shows(reason, row, several, choice, known, r)
  {
    StampTells(row, r, reason);
  }

  /** A test of the first implementation raises its reason exactly when the rows show it. */
  lemma {:induction false} TestTells(k: Option<Key>, row: Row, several: bool, choice: Option<Choice>, r: Rules,
                                     reason: Reason)
    requires EventKey(row, r) == k && (choice.None? <==> k.None? || ReportDay(row).None?)
    ensures PrimaryChecks(k, several, ReadActual(row, r), choice, Found(choice, r), r)(TestOf(reason))
            == Check(true, reason)
      <==> Shows(reason, row, several, choice, TextIn(row, "currency_code"), r)
  {
    var known := TextIn(row, "currency_code");
    if TestOf(reason) == 3 {
      StampShows(k, row, several, choice, known, r, reason);
    } else if TestOf(reason) < 12 {
      OwnReasonTells(k, row, several, choice, known, r, reason);
    } else {
      ClashShows(row, choice, known, r, reason);
      ClashRaised(reason, k, several, ReadActual(row, r), choice, Found(choice, r), r);
    }
  }

  lemma {:induction false} ReferenceTestTells(k: Option<Key>, row: Row, several: bool, choice: Option<Choice>, r: Rules,
                                              reason: Reason)
    requires EventKey(row, r) == k && (choice.None? <==> k.None? || ReportDay(row).None?)
    ensures var currency := CurrencyRead(Get(row, "currency_code"), r);
      ReferenceChecks(k, several, ReadActual(row, r), currency, choice, Found(choice, r), r)(TestOf(reason))
        == Check(true, reason)
      <==> Shows(reason, row, several, choice, FilledIn(row, "currency_code"), r)
  {
    var known := FilledIn(row, "currency_code");
    if TestOf(reason) < 12 {
      ReferenceOwnRaised(reason, k, several, ReadActual(row, r), choice, Found(choice, r), r);
      if TestOf(reason) == 3 {
        StampShows(k, row, several, choice, known, r, reason);
      } else {
        OwnReasonTells(k, row, several, choice, known, r, reason);
      }
    } else {
      ClashShows(row, choice, known, r, reason);
      ReferenceClashRaised(reason, k, several, ReadActual(row, r), choice, Found(choice, r), r);
    }
  }

  lemma StampIsThird(row: Row, r: Rules)
    ensures Announcement(row, r).Faulty? ==> TestOf(Announcement(row, r).reason) == 3
  {
  }

  /** Both implementations give a reason exactly when the rows show it. */
  lemma {:induction false} ReasonTells(k: Option<Key>, rows: seq<Row>, choice: Option<Choice>, r: Rules, reason: Reason)
    requires Keyed(k, rows, choice, r) && (choice.None? <==> k.None? || ReportDay(rows[0]).None?)
    ensures reason in PrimaryReasons(k, rows, choice, r)
      <==> Shows(reason, rows[0], |rows| != 1, choice, TextIn(rows[0], "currency_code"), r)
    ensures reason in ReferenceProblems(k, rows, choice, r)
      <==> Shows(reason, rows[0], |rows| != 1, choice, FilledIn(rows[0], "currency_code"), r)
  {
    var a, v, several := ReadActual(rows[0], r), Found(choice, r), |rows| != 1;
    StampIsThird(rows[0], r);
    TestsAreNumbered(k, several, a, choice, v, r);
    ReferenceIsNumbered(k, several, a, choice, v, r);
    OneTest(PrimaryChecks(k, several, a, choice, v, r), reason);
    OneTest(ReferenceChecks(k, several, a, CurrencyRead(a.currency, r), choice, v, r), reason);
    TestTells(k, rows[0], several, choice, r, reason);
    ReferenceTestTells(k, rows[0], several, choice, r, reason);
  }

  lemma {:induction false} ClashShows(row: Row, choice: Option<Choice>, known: bool, r: Rules, reason: Reason)
    requires TestOf(reason) >= 12 && (known ==> TextIn(row, "currency_code"))
    ensures Shows(reason, row, false, choice, known, r) == Shows(reason, row, true, choice, known, r)
         == (Found(choice, r).Some? && ClashRead(reason, ReadActual(row, r), Found(choice, r).value, known, r))
  {
    if choice.Some? && choice.value.Chosen? { ClashReads(reason, row, choice.value.row, known, r); }
  }

  // ----- the exclusions -----

  function FieldIn(row: Row, name: string): Value { if name in row then row[name] else Null }

  function PayloadIn(row: Row, r: Rules): (Value, Value, Value) {
    if KeyMissing(row) then (FieldIn(row, "m_ticker"), FieldIn(row, "per_end_date"), FieldIn(row, "per_type"))
    else (Text(CodeIn(row, "m_ticker", r)), row["per_end_date"], Text(CodeIn(row, "per_type", r)))
  }

  /** An exclusion quotes the first report of its key, under its key if that can be read, and gives every reason the
      rows show and no other. */
  ghost predicate ExclusionOf(x: Exclusion, row: Row, several: bool, choice: Option<Choice>, known: bool, r: Rules)
    requires known ==> TextIn(row, "currency_code")
  {
    && x.reasons != {} && (forall reason :: reason in x.reasons <==> Shows(reason, row, several, choice, known, r))
    && x.ticker == FieldIn(row, "ticker") && x.key == PayloadIn(row, r)
  }

  /** The estimate looked up for the report: none without a key and a report day; otherwise the one row of the latest
      earlier day of the key, if there is such a day and it has one row. */
  ghost predicate LookedUp(choice: Option<Choice>, row: Row, history: seq<Row>, r: Rules) {
    match choice
    case None => KeyMissing(row) || DayMissing(row, "act_rpt_date")
    case Some(c) =>
      && !KeyMissing(row) && !DayMissing(row, "act_rpt_date")
      && var k := Key(CodeIn(row, "m_ticker", r), row["per_end_date"].text, CodeIn(row, "per_type", r));
         var report := IsoDay(row["act_rpt_date"]).value;
         match c
         case Absent =>
           forall w, d | 0 <= w < |history| && KeyIn(history[w], k, r) && DayIn(history[w], "obs_date", d) ::
             d >= report
         case Chosen(v, on) => exists w | 0 <= w < |history| ::
             history[w] == v && LastEstimate(history, k, w, on, report, r)
         case Ambiguous =>
           && (forall w, on | 0 <= w < |history| :: !LastEstimate(history, k, w, on, report, r))
           && exists w, d | 0 <= w < |history| ::
                KeyIn(history[w], k, r) && DayIn(history[w], "obs_date", d) && d < report
  }

  lemma {:induction false} LookUpTells(k: Option<Key>, actuals: seq<Row>, history: seq<Row>, r: Rules)
    requires Members(actuals, KeyBy(r), k) != []
    ensures var row := Members(actuals, KeyBy(r), k)[0]; LookedUp(ChoiceFor(k, row, history, r), row, history, r)
  {
    var row := Members(actuals, KeyBy(r), k)[0];
    MembersHaveKey(actuals, KeyBy(r), k, 0);
    assert KeyBy(r)(row) == k && EventKey(row, r) == k;
    if k.Some? && ReportDay(row).Some? { ChoiceTells(k.value, ReportDay(row).value, history, r); }
  }

  lemma {:induction false} ChoiceTells(k: Key, report: int, history: seq<Row>, r: Rules)
    ensures match Latest(Members(history, KeyBy(r), Some(k)), report)
      case Absent =>
        forall w, d | 0 <= w < |history| && KeyIn(history[w], k, r) && DayIn(history[w], "obs_date", d) :: d >= report
      case Chosen(v, on) =>
        exists w | 0 <= w < |history| :: history[w] == v && LastEstimate(history, k, w, on, report, r)
      case Ambiguous =>
        && (forall w, on | 0 <= w < |history| :: !LastEstimate(history, k, w, on, report, r))
        && exists w, d | 0 <= w < |history| ::
             KeyIn(history[w], k, r) && DayIn(history[w], "obs_date", d) && d < report
  {
    var rows := Members(history, KeyBy(r), Some(k));
    match Latest(rows, report)
    case Absent =>
      forall w, d | 0 <= w < |history| && KeyIn(history[w], k, r) && DayIn(history[w], "obs_date", d)
        ensures d >= report
      {
        if d < report { LaterIsNone(history, k, report, r, w, d); }
      }
    case Chosen(v, on) =>
      var w := ChosenStands(history, k, report, r);
    case Ambiguous =>
      forall w, on | 0 <= w < |history| ensures !LastEstimate(history, k, w, on, report, r) {
        if LastEstimate(history, k, w, on, report, r) { StandingIsChosen(history, k, w, on, report, r); }
      }
      LatestHasRow(rows, report);
      var d := LatestDay(rows, report).value;
      var w := DayGivesRow(history, k, d, r);
      KeyTells(history[w], k, r);
      ObservedTells(history[w], d);
  }

  lemma {:induction false} ResultTells(k: Option<Key>, rows: seq<Row>, choice: Option<Choice>, r: Rules)
    requires Keyed(k, rows, choice, r) && (choice.None? <==> k.None? || ReportDay(rows[0]).None?)
    ensures var mine, theirs := PrimaryResult(k, rows, choice, r), ReferenceResult(k, rows, choice, r);
      var row, several := rows[0], |rows| != 1;
      && (mine.Excluded? ==> ExclusionOf(mine.exclusion, row, several, choice, TextIn(row, "currency_code"), r))
      && (theirs.Excluded? ==> ExclusionOf(theirs.exclusion, row, several, choice, FilledIn(row, "currency_code"), r))
  {
    forall reason
      ensures reason in PrimaryReasons(k, rows, choice, r)
        <==> Shows(reason, rows[0], |rows| != 1, choice, TextIn(rows[0], "currency_code"), r)
      ensures reason in ReferenceProblems(k, rows, choice, r)
        <==> Shows(reason, rows[0], |rows| != 1, choice, FilledIn(rows[0], "currency_code"), r)
    {
      ReasonTells(k, rows, choice, r, reason);
    }
    PayloadTells(k, rows[0], r);
  }

  /** The key an exclusion is filed under. */
  lemma PayloadTells(k: Option<Key>, row: Row, r: Rules)
    requires EventKey(row, r) == k
    ensures KeyPayload(k, row) == PayloadIn(row, r) && Get(row, "ticker") == FieldIn(row, "ticker")
  {
  }

  /** Whatever key gave no event is an exclusion with its reasons, in either implementation. */
  lemma {:induction false} ExclusionTells(k: Option<Key>, actuals: seq<Row>, history: seq<Row>, r: Rules)
    requires Members(actuals, KeyBy(r), k) != []
    ensures var rows := Members(actuals, KeyBy(r), k);
      var row, several, choice := rows[0], |rows| != 1, ChoiceFor(k, rows[0], history, r);
      var mine, theirs := PrimaryAt(k, actuals, history, r), ReferenceAt(k, actuals, history, r);
      && LookedUp(choice, row, history, r)
      && (mine.Excluded? ==> ExclusionOf(mine.exclusion, row, several, choice, TextIn(row, "currency_code"), r))
      && (theirs.Excluded? ==> ExclusionOf(theirs.exclusion, row, several, choice, FilledIn(row, "currency_code"), r))
  {
    var rows := Members(actuals, KeyBy(r), k);
    MembersHaveKey(actuals, KeyBy(r), k, 0);
    assert KeyBy(r)(rows[0]) == k;
    KeyedAt(k, actuals, history, r);
    LookUpTells(k, actuals, history, r);
    ResultTells(k, rows, ChoiceFor(k, rows[0], history, r), r);
  }
}
