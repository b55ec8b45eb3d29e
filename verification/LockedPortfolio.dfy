/** The portfolio the research report locks: the cross-sections above the floor, ordered once over all formations, and
    the two ends of each, frozen before any return is looked at. */
module LockedPortfolio {
  import opened Optional
  import opened Ordering
  import opened Grouping
  import opened Selection

  // ----- the ordered slice -----

  /** The order of the key (date, signal, m_ticker). */
  predicate DateRankLe(a: Observation, b: Observation) {
    a.formation < b.formation || (a.formation == b.formation && RankLe(a, b))
  }

  lemma DateRankLeIsPreorder()
    ensures Preorder(DateRankLe)
  {
    RankLeIsPreorder();
  }

  function CountOn(observations: seq<Observation>, formation: int): nat {
    |Members(observations, FormationOf(), formation)|
  }

  function AboveFloor(observations: seq<Observation>, minimum: nat): Observation -> bool {
    (o: Observation) => CountOn(observations, o.formation) >= minimum
  }

  /** The observations of the formations above the floor, in frame order. */
  function Slice(observations: seq<Observation>, minimum: nat): seq<Observation> {
    Sort(Filter(observations, AboveFloor(observations, minimum)), DateRankLe)
  }

  /** A row with its place within its formation. */
  datatype Slot = Slot(row: Observation, order: nat)

  function SlotAt(rows: seq<Observation>, i: nat): Slot
    requires i < |rows|
  {
    Slot(rows[i], CountOn(rows[..i], rows[i].formation))
  }

  function Slots(rows: seq<Observation>, n: nat): (r: seq<Slot>)
    requires n <= |rows|
    ensures |r| == n
  {
    if n == 0 then [] else Slots(rows, n - 1) + [SlotAt(rows, n - 1)]
  }

  /** `_locked_factor_slice`: rows above the floor, sorted and numbered; a name twice on one date is refused. */
  method LockFactorSlice(observations: seq<Observation>, minimum: nat) returns (r: Option<seq<Slot>>)
    ensures r.Some? <==> minimum >= 2 && NamesDistinctEverywhere(observations)
    ensures r.Some? ==> var slice := Slice(observations, minimum); r.value == Slots(slice, |slice|)
  {
    if minimum < 2 { return None; }
    var repeated := RepeatsName(observations);
    if repeated { return None; }
    var groups, order := GroupBy(observations, FormationOf());
    var kept: seq<Observation> := [];
    for n := 0 to |observations|
      invariant kept == Filter(observations[..n], AboveFloor(observations, minimum))
    {
      FilterNext(observations, n, AboveFloor(observations, minimum));
      FiledRows(groups, observations, FormationOf(), observations[n].formation);
      RowIsMember(observations, FormationOf(), observations[n]);
      if |groups[observations[n].formation]| >= minimum { kept := kept + [observations[n]]; }
    }
    assert observations[..|observations|] == observations;
    var slots := NumberRows(Sort(kept, DateRankLe));
    return Some(slots);
  }

  method RepeatsName(observations: seq<Observation>) returns (repeated: bool)
    ensures repeated <==> !NamesDistinctEverywhere(observations)
  {
    var seen: set<(int, string)> := {};
    for n := 0 to |observations|
      invariant seen == set j | 0 <= j < n :: (observations[j].formation, observations[j].mTicker)
      invariant forall i, j | 0 <= i < j < n ::
        observations[i].formation == observations[j].formation ==> observations[i].mTicker != observations[j].mTicker
    {
      var key := (observations[n].formation, observations[n].mTicker);
      if key in seen { return true; }
      seen := seen + {key};
    }
    repeated := false;
  }

  /** `cumcount`: each row's number among those of its formation. */
  method NumberRows(rows: seq<Observation>) returns (slots: seq<Slot>)
    ensures slots == Slots(rows, |rows|)
  {
    slots := [];
    var counts: map<int, nat> := map[];
    for n := 0 to |rows|
      invariant slots == Slots(rows, n)
      invariant forall d :: (if d in counts then counts[d] else 0) == CountOn(rows[..n], d)
    {
      var day := rows[n].formation;
      var place := if day in counts then counts[day] else 0;
      slots := slots + [Slot(rows[n], place)];
      forall d ensures CountOn(rows[..n + 1], d) == CountOn(rows[..n], d) + if d == day then 1 else 0 {
        MembersOfNext(rows, n, FormationOf(), d);
      }
      counts := counts[day := place + 1];
    }
  }

  // ----- the two ends -----

  /** `max(1, int(quantile * count))`. */
  function LegCount(quantile: real, n: nat): nat
    requires quantile > 0.0
  {
    var k := (quantile * n as real).Floor;
    assert quantile * n as real >= 0.0;
    if k > 1 then k else 1
  }

  /** For every quantile up to a half and at least two names the legs do not overlap. */
  lemma LockedLegsFit(quantile: real, n: nat)
    requires 0.0 < quantile <= 0.5 && n >= 2
    ensures 2 * LegCount(quantile, n) <= n
  {
    assert quantile * n as real <= 0.5 * n as real;
    var k := (quantile * n as real).Floor;
    assert 2.0 * k as real <= n as real;
  }

  /** A single name would be held in both legs at once: the floor of two names is needed. */
  lemma OneNameIsInBothLegs(quantile: real)
    requires 0.0 < quantile <= 0.5
    ensures LegCount(quantile, 1) == 1 && 2 * LegCount(quantile, 1) > 1
  {}

  lemma LegWithin(quantile: real, n: nat)
    requires 0.0 < quantile <= 0.5 && n >= 1
    ensures LegCount(quantile, n) <= n
  {
    if n >= 2 { LockedLegsFit(quantile, n); } else { OneNameIsInBothLegs(quantile); }
  }

  function SlotDate(): Slot -> int { (s: Slot) => s.row.formation }

  predicate OrderLe(a: Slot, b: Slot) { a.order <= b.order }

  function RowsOf(slots: seq<Slot>): (r: seq<Observation>)
    ensures |r| == |slots| && forall i | 0 <= i < |r| :: r[i] == slots[i].row
  {
    seq(|slots|, i requires 0 <= i < |slots| => slots[i].row)
  }

  /** One formation's rows, in their frozen order. */
  function GroupOf(slots: seq<Slot>, formation: int): seq<Observation> {
    RowsOf(Sort(Members(slots, SlotDate(), formation), OrderLe))
  }

  function SelectionOf(group: seq<Observation>, formation: int, quantile: real): FrozenSelection
    requires 0.0 < quantile <= 0.5 && group != []
  {
    LegWithin(quantile, |group|);
    var k := LegCount(quantile, |group|);
    FrozenSelection(formation, |group|, k, Names(group[..k]), Names(group[|group| - k..]))
  }

  /** Every frozen name has a return at this horizon. */
  predicate Resolved(f: FrozenSelection, returns_: map<(int, string), real>) {
    forall name | name in f.short + f.long :: (f.formation, name) in returns_
  }

  function Dates(slots: seq<Slot>): seq<int> { Sort(KeyList(slots, SlotDate()), IntLe) }

  lemma DateHasGroup(slots: seq<Slot>, n: nat)
    requires n < |Dates(slots)|
    ensures Members(slots, SlotDate(), Dates(slots)[n]) != [] && GroupOf(slots, Dates(slots)[n]) != []
  {
    var members := Members(slots, SlotDate(), Dates(slots)[n]);
    assert Preorder(IntLe) && Preorder(OrderLe);
    SortMembers(KeyList(slots, SlotDate()), IntLe, Dates(slots)[n]);
    KeyHasMembers(slots, SlotDate(), Dates(slots)[n]);
    SortSorts(members, OrderLe);
  }

  /** The selections of the first n dates. */
  function Locked(slots: seq<Slot>, n: nat, quantile: real): (r: seq<FrozenSelection>)
    requires n <= |Dates(slots)| && 0.0 < quantile <= 0.5
    ensures |r| == n
  {
    if n == 0 then []
    else
      DateHasGroup(slots, n - 1);
      var day := Dates(slots)[n - 1];
      Locked(slots, n - 1, quantile) + [SelectionOf(GroupOf(slots, day), day, quantile)]
  }

  /** The dates, among the first n, whose cohort is admitted to inference. */
  function AdmittedDates(selections: seq<FrozenSelection>, returns_: map<(int, string), real>, n: nat): seq<int>
    requires n <= |selections|
  {
    if n == 0 then []
    else
      AdmittedDates(selections, returns_, n - 1)
      + if Resolved(selections[n - 1], returns_) then [selections[n - 1].formation] else []
  }

  datatype Portfolio = Portfolio(selections: seq<FrozenSelection>, admitted: seq<int>)

  /** `_locked_horizon_portfolio`: every formation's ends are frozen and listed; a cohort is admitted only when all its
      frozen names have a return. */
  method LockPortfolio(slots: seq<Slot>, returns_: map<(int, string), real>, quantile: real)
    returns (r: Option<Portfolio>)
    ensures r.Some? <==> 0.0 < quantile <= 0.5
    ensures r.Some? ==> r.value.selections == Locked(slots, |Dates(slots)|, quantile)
    ensures r.Some? ==> r.value.admitted == AdmittedDates(r.value.selections, returns_, |r.value.selections|)
  {
    if !(0.0 < quantile <= 0.5) { return None; }
    var groups, order := GroupBy(slots, SlotDate());
    var dates := Sort(order, IntLe);
    var selections: seq<FrozenSelection>, admitted := [], [];
    for n := 0 to |dates|
      invariant selections == Locked(slots, n, quantile)
      invariant admitted == AdmittedDates(selections, returns_, n)
    {
      DateHasGroup(slots, n);
      FiledRows(groups, slots, SlotDate(), dates[n]);
      var group := RowsOf(Sort(groups[dates[n]], OrderLe));
      var selection := SelectionOf(group, dates[n], quantile);
      var resolved := CheckReturns(selection, returns_);
      NextAdmitted(selections, selection, returns_);
      selections := selections + [selection];
      if resolved { admitted := admitted + [dates[n]]; }
    }
    return Some(Portfolio(selections, admitted));
  }

  method CheckReturns(f: FrozenSelection, returns_: map<(int, string), real>) returns (resolved: bool)
    ensures resolved <==> Resolved(f, returns_)
  {
    var selected := f.short + f.long;
    for i := 0 to |selected|
      invariant forall j | 0 <= j < i :: (f.formation, selected[j]) in returns_
    {
      if (f.formation, selected[i]) !in returns_ { return false; }
    }
    resolved := true;
  }

  lemma NextAdmitted(selections: seq<FrozenSelection>, f: FrozenSelection, returns_: map<(int, string), real>)
    ensures AdmittedDates(selections + [f], returns_, |selections| + 1)
      == AdmittedDates(selections, returns_, |selections|) + if Resolved(f, returns_) then [f.formation] else []
  {
    SameAdmitted(selections, f, returns_, |selections|);
  }

  lemma {:induction false} SameAdmitted(selections: seq<FrozenSelection>, f: FrozenSelection,
                                        returns_: map<(int, string), real>, n: nat)
    requires n <= |selections|
    ensures AdmittedDates(selections + [f], returns_, n) == AdmittedDates(selections, returns_, n)
  {
    if n > 0 { SameAdmitted(selections, f, returns_, n - 1); }
  }

  // ----- the group of a formation -----

  lemma {:induction false} SlotGroups(rows: seq<Observation>, n: nat, formation: int)
    requires n <= |rows|
    ensures var members := Members(Slots(rows, n), SlotDate(), formation);
      && RowsOf(members) == Members(rows[..n], FormationOf(), formation)
      && forall i | 0 <= i < |members| :: members[i].order == i
  {
    if n > 0 {
      SlotGroups(rows, n - 1, formation);
      MembersOfNext(rows, n - 1, FormationOf(), formation);
      assert Slots(rows, n)[..n - 1] == Slots(rows, n - 1);
    }
  }

  lemma {:induction false} MembersFilter(rows: seq<Observation>, formation: int)
    ensures Members(rows, FormationOf(), formation) == Filter(rows, OnDate(formation))
  {
    if rows != [] { MembersFilter(rows[..|rows| - 1], formation); }
  }

  function OnDate(formation: int): Observation -> bool { (o: Observation) => o.formation == formation }

  /** The group a kept formation is cut from is its ranked cross-section. */
  lemma GroupIsRanked(observations: seq<Observation>, minimum: nat, formation: int)
    requires CountOn(observations, formation) >= minimum
    ensures var slice := Slice(observations, minimum);
      GroupOf(Slots(slice, |slice|), formation) == Ranked(observations, formation)
  {
    var slice := Slice(observations, minimum);
    assert slice[..|slice|] == slice;
    SlotGroups(slice, |slice|, formation);
    SortedStays(Members(Slots(slice, |slice|), SlotDate(), formation), OrderLe);
    SliceGroup(observations, minimum, formation);
  }

  lemma SliceGroup(observations: seq<Observation>, minimum: nat, formation: int)
    requires CountOn(observations, formation) >= minimum
    ensures Members(Slice(observations, minimum), FormationOf(), formation) == Ranked(observations, formation)
  {
    var kept := Filter(observations, AboveFloor(observations, minimum));
    var members := Members(observations, FormationOf(), formation);
    DateRankLeIsPreorder();
    MembersFilter(Slice(observations, minimum), formation);
    FilterOfSort(kept, OnDate(formation), DateRankLe);
    FilterTwice(observations, AboveFloor(observations, minimum), OnDate(formation), OnDate(formation));
    MembersFilter(observations, formation);
    forall i, j | 0 <= i < j < |members| ensures DateRankLe(members[i], members[j]) == RankLe(members[i], members[j]) {
      MembersHaveKey(observations, FormationOf(), formation, i);
      MembersHaveKey(observations, FormationOf(), formation, j);
    }
    SortAgrees(members, DateRankLe, RankLe);
  }
}
