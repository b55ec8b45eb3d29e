/** The latest estimate strictly before a report: found by rescanning the rows, or in a ledger kept by date. */
module Vintages {
  import opened Optional
  import opened Ordering
  import opened Documents
  import opened Dates

  type Row = map<string, Value>

  function ObservedOn(row: Row): Option<int> { IsoDay(Get(row, "obs_date")) }

  predicate Prior(row: Row, day: int) { ObservedOn(row).Some? && ObservedOn(row).value < day }

  datatype Choice = Absent | Ambiguous | Chosen(row: Row, on: int)

  // ----- what both look for -----

  /** The latest observation day before `day`. */
  function LatestDay(rows: seq<Row>, day: int): Option<int> {
    if rows == [] then None
    else
      var rest, last := LatestDay(rows[..|rows| - 1], day), rows[|rows| - 1];
      if !Prior(last, day) then rest
      else if rest.Some? && ObservedOn(last).value <= rest.value then rest
      else ObservedOn(last)
  }

  /** The rows observed on one day, in their order. */
  function OnDay(rows: seq<Row>, day: int): seq<Row> {
    if rows == [] then []
    else
      var last := rows[|rows| - 1];
      OnDay(rows[..|rows| - 1], day) + if ObservedOn(last) == Some(day) then [last] else []
  }

  /** The one row of the latest earlier day; nothing when that day has several. */
  function Latest(rows: seq<Row>, day: int): Choice {
    match LatestDay(rows, day)
    case None => Absent
    case Some(d) => if |OnDay(rows, d)| == 1 then Chosen(OnDay(rows, d)[0], d) else Ambiguous
  }

  /** The chosen row was observed on the day it was chosen for, and before the report. */
  lemma ChosenIsDated(rows: seq<Row>, day: int)
    requires Latest(rows, day).Chosen?
    ensures ObservedOn(Latest(rows, day).row) == Some(Latest(rows, day).on) && Latest(rows, day).on < day
    ensures Latest(rows, day).row in rows
  {
    LatestHasRow(rows, day);
    RowOnDay(rows, Latest(rows, day).on, 0);
  }

  lemma {:induction false} RowOnDay(rows: seq<Row>, day: int, i: nat)
    requires i < |OnDay(rows, day)|
    ensures ObservedOn(OnDay(rows, day)[i]) == Some(day) && OnDay(rows, day)[i] in rows
  {
    if i < |OnDay(rows[..|rows| - 1], day)| { RowOnDay(rows[..|rows| - 1], day, i); }
  }

  // ----- the rescan -----

  /** `max` over the candidates' dates, after filtering them from the rows; then a second filter on that date. */
  method Rescan(rows: seq<Row>, day: int) returns (c: Choice)
    ensures c == Latest(rows, day)
  {
    var candidates: seq<Row> := [];
    for n := 0 to |rows|
      invariant candidates == Candidates(rows[..n], day)
    {
      assert rows[..n + 1][..n] == rows[..n];
      if Prior(rows[n], day) { candidates := candidates + [rows[n]]; }
    }
    assert rows[..|rows|] == rows;
    CandidatesSuffice(rows, day);
    if candidates == [] { return Absent; }
    forall i | 0 <= i < |candidates| { CandidateIsPrior(rows, day, i); }
    var latest := LatestOf(candidates, day);
    LatestHasRow(rows, day);
    OnlyCandidatesOnDay(rows, day, latest);
    var kept := FilterDay(candidates, latest);
    if |kept| == 1 { return Chosen(kept[0], latest); } else { return Ambiguous; }
  }

  method LatestOf(candidates: seq<Row>, day: int) returns (latest: int)
    requires candidates != [] && forall i | 0 <= i < |candidates| :: Prior(candidates[i], day)
    ensures LatestDay(candidates, day) == Some(latest)
  {
    latest := ObservedOn(candidates[0]).value;
    assert candidates[..1][..0] == [];
    for n := 1 to |candidates|
      invariant LatestDay(candidates[..n], day) == Some(latest)
    {
      assert candidates[..n + 1][..n] == candidates[..n];
      if ObservedOn(candidates[n]).value > latest { latest := ObservedOn(candidates[n]).value; }
    }
    assert candidates[..|candidates|] == candidates;
  }

  method FilterDay(rows: seq<Row>, day: int) returns (kept: seq<Row>)
    ensures kept == OnDay(rows, day)
  {
    kept := [];
    for n := 0 to |rows|
      invariant kept == OnDay(rows[..n], day)
    {
      assert rows[..n + 1][..n] == rows[..n];
      if ObservedOn(rows[n]) == Some(day) { kept := kept + [rows[n]]; }
    }
    assert rows[..|rows|] == rows;
  }

  function Candidates(rows: seq<Row>, day: int): seq<Row> {
    if rows == [] then []
    else
      var last := rows[|rows| - 1];
      Candidates(rows[..|rows| - 1], day) + if Prior(last, day) then [last] else []
  }

  lemma {:induction false} CandidateIsPrior(rows: seq<Row>, day: int, i: nat)
    requires i < |Candidates(rows, day)|
    ensures Prior(Candidates(rows, day)[i], day)
  {
    if i < |Candidates(rows[..|rows| - 1], day)| { CandidateIsPrior(rows[..|rows| - 1], day, i); }
  }

  lemma {:induction false} CandidatesSuffice(rows: seq<Row>, day: int)
    ensures LatestDay(rows, day) == LatestDay(Candidates(rows, day), day)
    ensures LatestDay(rows, day).None? <==> Candidates(rows, day) == []
  {
    if rows != [] {
      var front, last := rows[..|rows| - 1], rows[|rows| - 1];
      CandidatesSuffice(front, day);
      if Prior(last, day) {
        var kept := Candidates(front, day) + [last];
        assert Candidates(rows, day) == kept;
        assert kept[..|kept| - 1] == Candidates(front, day) && kept[|kept| - 1] == last;
      } else {
        assert Candidates(rows, day) == Candidates(front, day);
      }
    }
  }

  lemma {:induction false} OnlyCandidatesOnDay(rows: seq<Row>, day: int, d: int)
    requires d < day
    ensures OnDay(Candidates(rows, day), d) == OnDay(rows, d)
  {
    if rows != [] {
      var front, last := rows[..|rows| - 1], rows[|rows| - 1];
      OnlyCandidatesOnDay(front, day, d);
      if Prior(last, day) {
        var kept := Candidates(front, day) + [last];
        assert Candidates(rows, day) == kept;
        assert kept[..|kept| - 1] == Candidates(front, day) && kept[|kept| - 1] == last;
      } else {
        assert Candidates(rows, day) == Candidates(front, day);
      }
    }
  }

  // ----- the ledger kept by date -----

  /** A dict from days to rows; `days` lists its keys in insertion order. */
  datatype Ledger = Ledger(rows: map<int, seq<Row>>, days: seq<int>)

  /** The ledger files every dated row under its day. */
  ghost predicate Indexes(ledger: Ledger, rows: seq<Row>) {
    && (forall d :: d in ledger.rows <==> OnDay(rows, d) != [])
    && (forall d | d in ledger.rows :: ledger.rows[d] == OnDay(rows, d))
    && (forall d :: d in ledger.days <==> d in ledger.rows)
  }

  function Empty(): Ledger { Ledger(map[], []) }

  function FileRow(ledger: Ledger, row: Row): Ledger {
    match ObservedOn(row)
    case None => ledger
    case Some(d) =>
      if d in ledger.rows then Ledger(ledger.rows[d := ledger.rows[d] + [row]], ledger.days)
      else Ledger(ledger.rows[d := [row]], ledger.days + [d])
  }

  lemma FileRowIndexes(ledger: Ledger, rows: seq<Row>, row: Row)
    requires Indexes(ledger, rows)
    ensures Indexes(FileRow(ledger, row), rows + [row])
  {
    assert (rows + [row])[..|rows|] == rows;
  }

  /** `max` over the ledger's earlier days, then the rows filed under it. */
  method LookUp(ledger: Ledger, ghost rows: seq<Row>, day: int) returns (c: Choice)
    requires Indexes(ledger, rows)
    ensures c == Latest(rows, day)
  {
    var eligible := DaysBefore(ledger.days, day);
    if eligible == [] {
      NoEarlierDay(ledger, rows, day, eligible);
      return Absent;
    }
    var chosen := MaxOf(eligible);
    GreatestIsLatest(ledger, rows, day, eligible, chosen);
    var candidates := ledger.rows[chosen];
    if |candidates| == 1 { return Chosen(candidates[0], chosen); } else { return Ambiguous; }
  }

  method DaysBefore(days: seq<int>, day: int) returns (eligible: seq<int>)
    ensures forall d :: d in eligible <==> d in days && d < day
  {
    eligible := [];
    for n := 0 to |days|
      invariant forall d :: d in eligible <==> d in days[..n] && d < day
    {
      assert days[..n + 1] == days[..n] + [days[n]];
      if days[n] < day { eligible := eligible + [days[n]]; }
    }
    assert days[..|days|] == days;
  }

  lemma NoEarlierDay(ledger: Ledger, rows: seq<Row>, day: int, eligible: seq<int>)
    requires Indexes(ledger, rows) && eligible == []
    requires forall d :: d in eligible <==> d in ledger.days && d < day
    ensures LatestDay(rows, day).None?
  {
    LatestHasRow(rows, day);
    match LatestDay(rows, day)
    case None =>
    case Some(d) => DayIsListed(ledger, rows, d);
  }

  lemma DayIsListed(ledger: Ledger, rows: seq<Row>, d: int)
    requires Indexes(ledger, rows)
    ensures d in ledger.days <==> OnDay(rows, d) != []
    ensures d in ledger.rows <==> OnDay(rows, d) != []
    ensures d in ledger.rows ==> ledger.rows[d] == OnDay(rows, d)
  {}

  lemma GreatestIsLatest(ledger: Ledger, rows: seq<Row>, day: int, eligible: seq<int>, chosen: int)
    requires Indexes(ledger, rows)
    requires forall d :: d in eligible <==> d in ledger.days && d < day
    requires chosen in eligible && forall x | x in eligible :: x <= chosen
    ensures chosen in ledger.rows && LatestDay(rows, day) == Some(chosen)
    ensures ledger.rows[chosen] == OnDay(rows, chosen)
  {
    DayIsListed(ledger, rows, chosen);
    LatestIsGreatest(rows, day, chosen);
    LatestHasRow(rows, day);
    DayIsListed(ledger, rows, LatestDay(rows, day).value);
    assert LatestDay(rows, day).value in eligible;
  }

  /** The latest earlier day has a row. */
  lemma {:induction false} LatestHasRow(rows: seq<Row>, day: int)
    ensures LatestDay(rows, day).Some? ==>
        LatestDay(rows, day).value < day && OnDay(rows, LatestDay(rows, day).value) != []
  {
    if rows != [] { LatestHasRow(rows[..|rows| - 1], day); }
  }

  /** No earlier day after it has one. */
  lemma {:induction false} LatestIsGreatest(rows: seq<Row>, day: int, d: int)
    requires d < day && OnDay(rows, d) != []
    ensures LatestDay(rows, day).Some? && d <= LatestDay(rows, day).value
  {
    var front := rows[..|rows| - 1];
    if OnDay(front, d) != [] { LatestIsGreatest(front, day, d); }
  }

  // ----- no look-ahead -----

  lemma {:induction false} OnDayOfAppend(a: seq<Row>, b: seq<Row>, day: int)
    ensures OnDay(a + b, day) == OnDay(a, day) + OnDay(b, day)
  {
    if b == [] { assert a + b == a; } else {
      assert (a + b)[..|a + b| - 1] == a + b[..|b| - 1];
      OnDayOfAppend(a, b[..|b| - 1], day);
    }
  }

  lemma {:induction false} LatestDayOfAppend(a: seq<Row>, b: seq<Row>, day: int)
    ensures LatestDay(a + b, day) ==
      if LatestDay(b, day).None? then LatestDay(a, day)
      else if LatestDay(a, day).Some? && LatestDay(b, day).value <= LatestDay(a, day).value then LatestDay(a, day)
      else LatestDay(b, day)
  {
    if b == [] { assert a + b == a; } else {
      assert (a + b)[..|a + b| - 1] == a + b[..|b| - 1];
      LatestDayOfAppend(a, b[..|b| - 1], day);
    }
  }

  /** A row that is undated, or dated on or after the report, can stand anywhere in the list or not at all. */
  lemma LaterRowsAreInvisible(a: seq<Row>, later: Row, b: seq<Row>, day: int)
    requires !Prior(later, day)
    ensures Latest(a + [later] + b, day) == Latest(a + b, day)
  {
    LatestDayOfAppend(a + [later], b, day);
    LatestDayOfAppend(a, [later], day);
    LatestDayOfAppend(a, b, day);
    LatestHasRow(a + b, day);
    if LatestDay(a + b, day).Some? {
      var d := LatestDay(a + b, day).value;
      OnDayOfAppend(a + [later], b, d);
      OnDayOfAppend(a, [later], d);
      OnDayOfAppend(a, b, d);
    }
  }
}
