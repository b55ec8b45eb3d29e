/** Both matchers over whole tables: the same events, and nothing that could not have been known before the report. */
module Matching {
  import opened Optional
  import opened Ordering
  import opened Grouping
  import opened Vintages
  import opened Consensus

  /** The vintage found for a report among those with its key. */
  function ChoiceAmong(usable: bool, day: Option<int>, vintages: seq<Row>): Option<Choice> {
    if usable && day.Some? then Some(Latest(vintages, day.value)) else None
  }

  /** The vintage looked up for an actual: nothing when its key or report date is unusable. */
  function ChoiceFor(k: Option<Key>, row: Row, history: seq<Row>, r: Rules): (c: Option<Choice>)
    ensures c.Some? && c.value.Chosen? ==> ObservedOn(c.value.row) == Some(c.value.on)
  {
    var c := ChoiceAmong(k.Some?, ReportDay(row), Members(history, KeyBy(r), k));
    if c.Some? && c.value.Chosen? then
      ChosenIsDated(Members(history, KeyBy(r), k), ReportDay(row).value);
      c
    else c
  }

  predicate HaveRows(keys: seq<Option<Key>>, actuals: seq<Row>, r: Rules) {
    forall i | 0 <= i < |keys| :: Members(actuals, KeyBy(r), keys[i]) != []
  }

  function PrimaryAt(k: Option<Key>, actuals: seq<Row>, history: seq<Row>, r: Rules): Result
    requires Members(actuals, KeyBy(r), k) != []
  {
    var rows := Members(actuals, KeyBy(r), k);
    PrimaryResult(k, rows, ChoiceFor(k, rows[0], history, r), r)
  }

  function ReferenceAt(k: Option<Key>, actuals: seq<Row>, history: seq<Row>, r: Rules): Result
    requires Members(actuals, KeyBy(r), k) != []
  {
    var rows := Members(actuals, KeyBy(r), k);
    ReferenceResult(k, rows, ChoiceFor(k, rows[0], history, r), r)
  }

  function PrimaryResults(keys: seq<Option<Key>>, actuals: seq<Row>, history: seq<Row>, r: Rules): (s: seq<Result>)
    requires HaveRows(keys, actuals, r)
    ensures |s| == |keys| && forall i | 0 <= i < |keys| :: s[i] == PrimaryAt(keys[i], actuals, history, r)
  {
    seq(|keys|, i requires 0 <= i < |keys| => PrimaryAt(keys[i], actuals, history, r))
  }

  function ReferenceResults(keys: seq<Option<Key>>, actuals: seq<Row>, history: seq<Row>, r: Rules): (s: seq<Result>)
    requires HaveRows(keys, actuals, r)
    ensures |s| == |keys| && forall i | 0 <= i < |keys| :: s[i] == ReferenceAt(keys[i], actuals, history, r)
  {
    seq(|keys|, i requires 0 <= i < |keys| => ReferenceAt(keys[i], actuals, history, r))
  }

  /** The two lists the results are reported in. */
  function EventsOf(results: seq<Result>): seq<Event> {
    if results == [] then []
    else
      var last := results[|results| - 1];
      EventsOf(results[..|results| - 1]) + if last.Matched? then [last.event] else []
  }

  function ExclusionsOf(results: seq<Result>): seq<Exclusion> {
    if results == [] then []
    else
      var last := results[|results| - 1];
      ExclusionsOf(results[..|results| - 1]) + if last.Excluded? then [last.exclusion] else []
  }

  function Keys(actuals: seq<Row>, r: Rules): seq<Option<Key>> { Sort(KeyList(actuals, KeyBy(r)), r.le) }

  lemma KeysHaveRows(actuals: seq<Row>, r: Rules)
    requires TotalOrder(r.le)
    ensures HaveRows(Keys(actuals, r), actuals, r)
  {
    var keys := Keys(actuals, r);
    forall i | 0 <= i < |keys| ensures Members(actuals, KeyBy(r), keys[i]) != [] {
      SortMembers(KeyList(actuals, KeyBy(r)), r.le, keys[i]);
      KeyHasMembers(actuals, KeyBy(r), keys[i]);
    }
  }

  lemma OneMoreResult(results: seq<Result>, n: nat)
    requires n < |results|
    ensures EventsOf(results[..n + 1])
      == EventsOf(results[..n]) + if results[n].Matched? then [results[n].event] else []
    ensures ExclusionsOf(results[..n + 1])
      == ExclusionsOf(results[..n]) + if results[n].Excluded? then [results[n].exclusion] else []
  {
    assert results[..n + 1][..n] == results[..n];
  }

  /** `_normalize_pair`: group both tables by key, then rescan the group's vintages for each actual. */
  method NormalizePair(actuals: seq<Row>, history: seq<Row>, r: Rules)
    returns (matched: seq<Event>, exclusions: seq<Exclusion>)
    requires TotalOrder(r.le)
    ensures HaveRows(Keys(actuals, r), actuals, r)
    ensures matched == EventsOf(PrimaryResults(Keys(actuals, r), actuals, history, r))
    ensures exclusions == ExclusionsOf(PrimaryResults(Keys(actuals, r), actuals, history, r))
  {
    var vintages, _ := GroupBy(history, KeyBy(r));
    var groups, order := GroupBy(actuals, KeyBy(r));
    KeysHaveRows(actuals, r);
    matched, exclusions := NormalizeAll(Sort(order, r.le), groups, vintages, actuals, history, r);
  }

  method NormalizeAll(keys: seq<Option<Key>>, groups: map<Option<Key>, seq<Row>>, vintages: map<Option<Key>, seq<Row>>,
                      ghost actuals: seq<Row>, ghost history: seq<Row>, r: Rules)
    returns (matched: seq<Event>, exclusions: seq<Exclusion>)
    requires HaveRows(keys, actuals, r) && Files(groups, actuals, KeyBy(r)) && Files(vintages, history, KeyBy(r))
    ensures matched == EventsOf(PrimaryResults(keys, actuals, history, r))
    ensures exclusions == ExclusionsOf(PrimaryResults(keys, actuals, history, r))
  {
    ghost var results := PrimaryResults(keys, actuals, history, r);
    matched, exclusions := [], [];
    for n := 0 to |keys|
      invariant matched == EventsOf(results[..n]) && exclusions == ExclusionsOf(results[..n])
    {
      var result := NormalizeNext(keys[n], groups, vintages, actuals, history, r);
      OneMoreResult(results, n);
      match result
      case Matched(event) => matched := matched + [event];
      case Excluded(exclusion) => exclusions := exclusions + [exclusion];
    }
    assert results[..|keys|] == results;
  }

  method NormalizeNext(k: Option<Key>, groups: map<Option<Key>, seq<Row>>, vintages: map<Option<Key>, seq<Row>>,
                       ghost actuals: seq<Row>, ghost history: seq<Row>, r: Rules) returns (result: Result)
    requires Members(actuals, KeyBy(r), k) != []
    requires Files(groups, actuals, KeyBy(r)) && Files(vintages, history, KeyBy(r))
    ensures result == PrimaryAt(k, actuals, history, r)
  {
    FiledRows(groups, actuals, KeyBy(r), k);
    result := NormalizeOne(k, groups[k], vintages, history, r);
  }

  method NormalizeOne(k: Option<Key>, rows: seq<Row>, vintages: map<Option<Key>, seq<Row>>, ghost history: seq<Row>,
                      r: Rules)
    returns (result: Result)
    requires rows != [] && Files(vintages, history, KeyBy(r))
    ensures result == PrimaryResult(k, rows, ChoiceFor(k, rows[0], history, r), r)
  {
    var choice: Option<Choice> := None;
    if k.Some? && ReportDay(rows[0]).Some? {
      FiledRows(vintages, history, KeyBy(r), k);
      var found := Rescan(if k in vintages then vintages[k] else [], ReportDay(rows[0]).value);
      choice := Some(found);
    }
    assert choice == ChoiceFor(k, rows[0], history, r);
    return PrimaryResult(k, rows, choice, r);
  }

  // ----- the date-indexed ledger -----

  function Filed(ledgers: map<Key, Ledger>, k: Key): Ledger { if k in ledgers then ledgers[k] else Empty() }

  ghost predicate IndexesAll(ledgers: map<Key, Ledger>, history: seq<Row>, r: Rules) {
    forall k :: Indexes(Filed(ledgers, k), Members(history, KeyBy(r), Some(k)))
  }

  method BuildLedger(history: seq<Row>, r: Rules) returns (ledgers: map<Key, Ledger>)
    ensures IndexesAll(ledgers, history, r)
  {
    ledgers := map[];
    for n := 0 to |history|
      invariant IndexesAll(ledgers, history[..n], r)
    {
      var key, row := EventKey(history[n], r), history[n];
      ghost var before := ledgers;
      if key.Some? && ObservedOn(row).Some? {
        ledgers := ledgers[key.value := FileRow(Filed(ledgers, key.value), row)];
      }
      forall k ensures Indexes(Filed(ledgers, k), Members(history[..n + 1], KeyBy(r), Some(k))) {
        MembersOfNext(history, n, KeyBy(r), Some(k));
        assert Indexes(Filed(before, k), Members(history[..n], KeyBy(r), Some(k)));
        LedgerStep(Filed(before, k), Members(history[..n], KeyBy(r), Some(k)), row,
                   Members(history[..n + 1], KeyBy(r), Some(k)), key == Some(k));
      }
    }
    assert history[..|history|] == history;
  }

  lemma LedgerStep(ledger: Ledger, rows: seq<Row>, row: Row, next: seq<Row>, mine: bool)
    requires Indexes(ledger, rows) && next == rows + if mine then [row] else []
    ensures Indexes(if mine then FileRow(ledger, row) else ledger, next)
  {
    if mine { FileRowIndexes(ledger, rows, row); } else { assert next == rows; }
  }

  /** `_reconstruct_pair`: file the vintages by key and date, then look each actual up. */
  method ReconstructPair(actuals: seq<Row>, history: seq<Row>, r: Rules)
    returns (events: seq<Event>, exclusions: seq<Exclusion>)
    requires TotalOrder(r.le)
    ensures HaveRows(Keys(actuals, r), actuals, r)
    ensures events == EventsOf(ReferenceResults(Keys(actuals, r), actuals, history, r))
    ensures exclusions == ExclusionsOf(ReferenceResults(Keys(actuals, r), actuals, history, r))
  {
    var ledgers := BuildLedger(history, r);
    var groups, order := GroupBy(actuals, KeyBy(r));
    KeysHaveRows(actuals, r);
    events, exclusions := ReconstructAll(Sort(order, r.le), groups, ledgers, actuals, history, r);
  }

  method ReconstructAll(keys: seq<Option<Key>>, groups: map<Option<Key>, seq<Row>>, ledgers: map<Key, Ledger>,
                      ghost actuals: seq<Row>, ghost history: seq<Row>, r: Rules)
    returns (events: seq<Event>, exclusions: seq<Exclusion>)
    requires HaveRows(keys, actuals, r) && Files(groups, actuals, KeyBy(r)) && IndexesAll(ledgers, history, r)
    ensures events == EventsOf(ReferenceResults(keys, actuals, history, r))
    ensures exclusions == ExclusionsOf(ReferenceResults(keys, actuals, history, r))
  {
    ghost var results := ReferenceResults(keys, actuals, history, r);
    events, exclusions := [], [];
    for n := 0 to |keys|
      invariant events == EventsOf(results[..n]) && exclusions == ExclusionsOf(results[..n])
    {
      var result := ReconstructNext(keys[n], groups, ledgers, actuals, history, r);
      OneMoreResult(results, n);
      match result
      case Matched(event) => events := events + [event];
      case Excluded(exclusion) => exclusions := exclusions + [exclusion];
    }
    assert results[..|keys|] == results;
  }

  method ReconstructNext(k: Option<Key>, groups: map<Option<Key>, seq<Row>>, ledgers: map<Key, Ledger>,
                         ghost actuals: seq<Row>, ghost history: seq<Row>, r: Rules) returns (result: Result)
    requires Members(actuals, KeyBy(r), k) != []
    requires Files(groups, actuals, KeyBy(r)) && IndexesAll(ledgers, history, r)
    ensures result == ReferenceAt(k, actuals, history, r)
  {
    FiledRows(groups, actuals, KeyBy(r), k);
    result := ReconstructOne(k, groups[k], ledgers, history, r);
  }

  method ReconstructOne(k: Option<Key>, rows: seq<Row>, ledgers: map<Key, Ledger>, ghost history: seq<Row>, r: Rules)
    returns (result: Result)
    requires rows != [] && IndexesAll(ledgers, history, r)
    ensures result == ReferenceResult(k, rows, ChoiceFor(k, rows[0], history, r), r)
  {
    var choice: Option<Choice> := None;
    if k.Some? && ReportDay(rows[0]).Some? {
      var found := LookUp(Filed(ledgers, k.value), Members(history, KeyBy(r), k), ReportDay(rows[0]).value);
      choice := Some(found);
    }
    return ReferenceResult(k, rows, choice, r);
  }

  // ----- the two lists -----

  /** Key by key the two implementations agree as `ResultsAgree` says. */
  lemma SameAt(k: Option<Key>, actuals: seq<Row>, history: seq<Row>, r: Rules)
    requires Members(actuals, KeyBy(r), k) != []
    ensures var mine, theirs := PrimaryAt(k, actuals, history, r), ReferenceAt(k, actuals, history, r);
      var row := Members(actuals, KeyBy(r), k)[0];
      && (mine.Matched? <==> theirs.Matched?) && (mine.Matched? ==> mine == theirs)
      && (mine.Excluded? ==>
          mine.exclusion.key == theirs.exclusion.key && mine.exclusion.ticker == theirs.exclusion.ticker)
      && (mine == theirs <==> !BlankCurrency(row, ChoiceFor(k, row, history, r)))
  {
    var rows := Members(actuals, KeyBy(r), k);
    ResultsAgree(k, rows, ChoiceFor(k, rows[0], history, r), r);
  }

  lemma {:induction false} SameEvents(mine: seq<Result>, theirs: seq<Result>)
    requires |mine| == |theirs|
    requires forall i | 0 <= i < |mine| ::
        (mine[i].Matched? <==> theirs[i].Matched?) && (mine[i].Matched? ==> mine[i] == theirs[i])
    ensures EventsOf(mine) == EventsOf(theirs) && |ExclusionsOf(mine)| == |ExclusionsOf(theirs)|
  {
    if mine != [] { SameEvents(mine[..|mine| - 1], theirs[..|theirs| - 1]); }
  }

  /** For every pair of tables the two implementations admit the same events with the same values. */
  lemma MatchersAgree(actuals: seq<Row>, history: seq<Row>, r: Rules)
    requires TotalOrder(r.le)
    ensures HaveRows(Keys(actuals, r), actuals, r)
    ensures EventsOf(PrimaryResults(Keys(actuals, r), actuals, history, r))
      == EventsOf(ReferenceResults(Keys(actuals, r), actuals, history, r))
  {
    var keys := Keys(actuals, r);
    KeysHaveRows(actuals, r);
    forall i | 0 <= i < |keys| { SameAt(keys[i], actuals, history, r); }
    SameEvents(PrimaryResults(keys, actuals, history, r), ReferenceResults(keys, actuals, history, r));
  }

  /** The full reports are equal exactly when no actual with a blank currency meets a vintage with some text. */
  lemma ReportsAgree(actuals: seq<Row>, history: seq<Row>, r: Rules)
    requires TotalOrder(r.le)
    ensures HaveRows(Keys(actuals, r), actuals, r)
    ensures PrimaryResults(Keys(actuals, r), actuals, history, r)
        == ReferenceResults(Keys(actuals, r), actuals, history, r)
      <==> forall i | 0 <= i < |Keys(actuals, r)| ::
             var row := Members(actuals, KeyBy(r), Keys(actuals, r)[i])[0];
             !BlankCurrency(row, ChoiceFor(Keys(actuals, r)[i], row, history, r))
  {
    var keys := Keys(actuals, r);
    KeysHaveRows(actuals, r);
    var mine, theirs := PrimaryResults(keys, actuals, history, r), ReferenceResults(keys, actuals, history, r);
    forall i | 0 <= i < |keys| { SameAt(keys[i], actuals, history, r); }
    assert mine == theirs <==> forall i | 0 <= i < |keys| :: mine[i] == theirs[i];
  }

  // ----- no look-ahead -----

  /** The row is undated, or dated on or after the report of every actual with its key. */
  predicate NotYetKnown(later: Row, actuals: seq<Row>, r: Rules) {
    forall i | 0 <= i < |actuals| && EventKey(actuals[i], r) == EventKey(later, r) && ReportDay(actuals[i]).Some? ::
      !Prior(later, ReportDay(actuals[i]).value)
  }

  lemma LatestIgnoresLater(usable: bool, day: Option<int>, key: Row -> Option<Key>, k: Option<Key>,
                           a: seq<Row>, later: Row, b: seq<Row>)
    requires key(later) == k && day.Some? ==> !Prior(later, day.value)
    ensures ChoiceAmong(usable, day, Members(a + [later] + b, key, k))
        == ChoiceAmong(usable, day, Members(a + b, key, k))
  {
    var before, after := Members(a, key, k), Members(b, key, k);
    MembersAround(a, later, b, key, k);
    if key(later) != k {
      assert before + [] + after == before + after;
    } else if day.Some? {
      LaterRowsAreInvisible(before, later, after, day.value);
    }
  }

  lemma ChoiceIgnoresLater(k: Option<Key>, actuals: seq<Row>, a: seq<Row>, later: Row, b: seq<Row>, r: Rules)
    requires Members(actuals, KeyBy(r), k) != [] && NotYetKnown(later, actuals, r)
    ensures ChoiceFor(k, Members(actuals, KeyBy(r), k)[0], a + [later] + b, r)
      == ChoiceFor(k, Members(actuals, KeyBy(r), k)[0], a + b, r)
  {
    var row := Members(actuals, KeyBy(r), k)[0];
    MembersHaveKey(actuals, KeyBy(r), k, 0);
    var i :| 0 <= i < |actuals| && actuals[i] == row;
    assert EventKey(actuals[i], r) == k;
    LatestIgnoresLater(k.Some?, ReportDay(row), KeyBy(r), k, a, later, b);
  }

  /** Adding a vintage dated on or after the report changes nothing, wherever in the table it stands. */
  lemma NoLookAhead(actuals: seq<Row>, a: seq<Row>, later: Row, b: seq<Row>, r: Rules)
    requires TotalOrder(r.le) && NotYetKnown(later, actuals, r)
    ensures HaveRows(Keys(actuals, r), actuals, r)
    ensures PrimaryResults(Keys(actuals, r), actuals, a + [later] + b, r)
        == PrimaryResults(Keys(actuals, r), actuals, a + b, r)
    ensures ReferenceResults(Keys(actuals, r), actuals, a + [later] + b, r)
        == ReferenceResults(Keys(actuals, r), actuals, a + b, r)
  {
    var keys := Keys(actuals, r);
    KeysHaveRows(actuals, r);
    forall i | 0 <= i < |keys|
      ensures PrimaryAt(keys[i], actuals, a + [later] + b, r) == PrimaryAt(keys[i], actuals, a + b, r)
      ensures ReferenceAt(keys[i], actuals, a + [later] + b, r) == ReferenceAt(keys[i], actuals, a + b, r)
    {
      ChoiceIgnoresLater(keys[i], actuals, a, later, b, r);
    }
  }
}
