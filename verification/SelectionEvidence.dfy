/** What the frozen selections say, told in the observations: who is ranked where, who is selected, and why a cohort is
    admitted or not. */
module SelectionEvidence {
  import opened Optional
  import opened Ordering
  import opened TextOrder
  import opened Grouping
  import opened Selection
  import opened LockedPortfolio

  // ----- a cross-section -----

  function On(formation: int): Observation -> bool { (o: Observation) => o.formation == formation }

  /** One formation's observations, as they came. */
  function RowsAt(observations: seq<Observation>, formation: int): seq<Observation> {
    Filter(observations, On(formation))
  }

  predicate ComesBefore(a: Observation, b: Observation) {
    a.signal < b.signal || (a.signal == b.signal && TextLe(a.mTicker, b.mTicker))
  }

  /** The formation's observations from the lowest signal to the highest, equal signals by name. */
  ghost predicate RankedAs(observations: seq<Observation>, formation: int, group: seq<Observation>) {
    && multiset(group) == multiset(RowsAt(observations, formation))
    && forall i, j | 0 <= i < j < |group| :: ComesBefore(group[i], group[j])
  }

  lemma RankedTells(observations: seq<Observation>, formation: int)
    ensures RankedAs(observations, formation, Ranked(observations, formation))
    ensures |Ranked(observations, formation)| == |RowsAt(observations, formation)|
    ensures Members(observations, FormationOf(), formation) == RowsAt(observations, formation)
  {
    MembersFilter(observations, formation);
    FilterCongruent(observations, OnDate(formation), On(formation));
    RankLeIsPreorder();
    SortSorts(RowsAt(observations, formation), RankLe);
    var group := Ranked(observations, formation);
    forall i, j | 0 <= i < j < |group| ensures ComesBefore(group[i], group[j]) { assert RankLe(group[i], group[j]); }
  }

  /** The first k names and the last k. */
  predicate EndsAre(group: seq<Observation>, k: nat, short: seq<string>, long: seq<string>) {
    && |short| == k && |long| == k && k <= |group|
    && (forall i | 0 <= i < k :: short[i] == group[i].mTicker)
    && forall i | 0 <= i < k :: long[i] == group[|group| - k + i].mTicker
  }

  /** A fifth of the cross-section, rounded down; nothing under ten names. */
  predicate LegSize(n: nat, k: nat) { if n < 10 then k == 0 else 5 * k <= n < 5 * (k + 1) }

  /** Among the first k or the last k. */
  predicate AtAnEnd(group: seq<Observation>, k: nat, i: int) {
    0 <= i < |group| && (i < k || i >= |group| - k)
  }

  predicate PathIs(o: Observation, horizon: int, status: PathStatus) {
    if horizon in o.paths then o.paths[horizon] == status else status == NotResolved
  }

  predicate StatusIs(group: seq<Observation>, k: nat, horizon: int, status: CohortStatus) {
    match status
    case BelowMinimum => |group| < 10
    case TerminalExcluded =>
      && |group| >= 10
      && exists i | 0 <= i < |group| :: AtAnEnd(group, k, i) && PathIs(group[i], horizon, TerminalNotSupported)
    case UnresolvedExcluded =>
      && |group| >= 10
      && (forall i | 0 <= i < |group| && AtAnEnd(group, k, i) :: !PathIs(group[i], horizon, TerminalNotSupported))
      && exists i | 0 <= i < |group| :: AtAnEnd(group, k, i) && PathIs(group[i], horizon, NotResolved)
    case Admitted =>
      && |group| >= 10
      && forall i | 0 <= i < |group| && AtAnEnd(group, k, i) :: PathIs(group[i], horizon, ResolvedNonterminal)
  }

  predicate LegIs(name: string, short: seq<string>, long: seq<string>, leg: Option<Leg>) {
    match leg
    case Some(Long) => name in long
    case Some(Short) => name in short && name !in long
    case None => name !in short && name !in long
  }

  /** What a manifest says of its formation, ranked as this group. */
  predicate Lists(m: Manifest, group: seq<Observation>) {
    && m.eligible == |group| && LegSize(|group|, m.perLeg) && EndsAre(group, m.perLeg, m.short, m.long)
    && StatusIs(group, m.perLeg, m.horizon, m.status) && |m.ranked| == |group|
    && forall i | 0 <= i < |group| ::
         && m.ranked[i].rank == i + 1 && m.ranked[i].mTicker == group[i].mTicker
         && m.ranked[i].signal == group[i].signal && PathIs(group[i], m.horizon, m.ranked[i].status)
         && LegIs(group[i].mTicker, m.short, m.long, m.ranked[i].leg)
  }

  lemma SizeTells(n: nat)
    ensures LegSize(n, NamesPerLeg(n))
  {
  }

  lemma EndsTell(group: seq<Observation>)
    ensures EndsAre(group, NamesPerLeg(|group|), Names(ShortTail(group)), Names(LongTail(group)))
  {
    LegsFit(|group|);
  }

  lemma PathTells(o: Observation, horizon: int, status: PathStatus)
    ensures StatusOn(o, horizon) == status <==> PathIs(o, horizon, status)
  {
  }

  /** Some selected path has a status exactly when one of those at the ends has. */
  lemma {:induction false} AnyTells(group: seq<Observation>, horizon: int, status: PathStatus)
    ensures var k := NamesPerLeg(|group|);
      AnyStatus(ShortTail(group) + LongTail(group), horizon, status)
      <==> exists i | 0 <= i < |group| :: AtAnEnd(group, k, i) && PathIs(group[i], horizon, status)
  {
    LegsFit(|group|);
    var n, k := |group|, NamesPerLeg(|group|);
    var selected := ShortTail(group) + LongTail(group);
    if AnyStatus(selected, horizon, status) {
      var j :| 0 <= j < |selected| && StatusOn(selected[j], horizon) == status;
      var i := if j < k then j else n - 2 * k + j;
      assert selected[j] == group[i] && AtAnEnd(group, k, i);
      PathTells(group[i], horizon, status);
    }
    if i :| 0 <= i < n && AtAnEnd(group, k, i) && PathIs(group[i], horizon, status) {
      var j := if i < k then i else i - n + 2 * k;
      assert selected[j] == group[i];
      PathTells(group[i], horizon, status);
    }
  }

  lemma {:induction false} StatusTells(group: seq<Observation>, horizon: int)
    ensures StatusIs(group, NamesPerLeg(|group|), horizon, StatusOf(group, horizon))
  {
    AnyTells(group, horizon, TerminalNotSupported);
    AnyTells(group, horizon, NotResolved);
  }

  lemma {:induction false} ManifestTells(group: seq<Observation>, formation: int, horizon: int)
    ensures var m := ManifestOf(group, formation, horizon);
      m.formation == formation && m.horizon == horizon && Lists(m, group)
  {
    SizeTells(|group|);
    EndsTell(group);
    StatusTells(group, horizon);
  }

  // ----- the manifests -----

  predicate Increasing(days: seq<int>) { forall i, j | 0 <= i < j < |days| :: days[i] < days[j] }

  /** The formations, each once, from the earliest to the latest. */
  ghost predicate AreFormations(observations: seq<Observation>, days: seq<int>) {
    && Increasing(days)
    && forall d :: d in days <==> exists o | o in observations :: o.formation == d
  }

  lemma FormationsTell(observations: seq<Observation>)
    ensures AreFormations(observations, Formations(observations))
  {
    var keys, days := KeyList(observations, FormationOf()), Formations(observations);
    assert TotalOrder(IntLe);
    SortSorts(keys, IntLe);
    KeysAreDistinct(observations, FormationOf());
    DistinctSort(keys, IntLe);
    forall i, j | 0 <= i < j < |days| ensures days[i] < days[j] { assert IntLe(days[i], days[j]); }
    forall d ensures d in days <==> exists o | o in observations :: o.formation == d {
      SortMembers(keys, IntLe, d);
      KeyHasRow(observations, FormationOf(), d);
      if o :| o in observations && FormationOf()(o) == d { assert o.formation == d; }
      if o :| o in observations && o.formation == d { assert FormationOf()(o) == d; }
    }
  }

  /** The manifest lists its formation. */
  ghost predicate Told(observations: seq<Observation>, m: Manifest) {
    exists group :: RankedAs(observations, m.formation, group) && Lists(m, group)
  }

  /** One manifest for each formation and horizon, formation by formation and horizon by horizon. */
  predicate Placed(ms: seq<Manifest>, formations: seq<int>, horizons: seq<int>, i: nat, j: nat) {
    var at := i * |horizons| + j;
    && i < |formations| && j < |horizons| && at < |ms|
    && ms[at].formation == formations[i] && ms[at].horizon == horizons[j]
  }

  lemma {:induction false} AtTells(observations: seq<Observation>, formation: int, horizons: seq<int>, n: nat)
    requires n <= |horizons|
    ensures var ms := ManifestsAt(observations, formation, horizons, n);
      |ms| == n && forall j | 0 <= j < n ::
        ms[j].formation == formation && ms[j].horizon == horizons[j] && Told(observations, ms[j])
  {
    if n > 0 {
      AtTells(observations, formation, horizons, n - 1);
      RankedTells(observations, formation);
      ManifestTells(Ranked(observations, formation), formation, horizons[n - 1]);
    }
  }

  lemma {:induction false} AllTold(observations: seq<Observation>, formations: seq<int>, horizons: seq<int>, n: nat)
    requires n <= |formations|
    ensures forall m | m in Manifests(observations, formations, horizons, n) :: Told(observations, m)
  {
    if n > 0 {
      AllTold(observations, formations, horizons, n - 1);
      AtTells(observations, formations[n - 1], horizons, |horizons|);
    }
  }

  lemma {:induction false} AllPlaced(observations: seq<Observation>, formations: seq<int>, horizons: seq<int>, n: nat)
    requires n <= |formations|
    ensures var ms := Manifests(observations, formations, horizons, n);
      && |ms| == n * |horizons|
      && forall i: nat, j: nat | i < n && j < |horizons| :: Placed(ms, formations, horizons, i, j)
  {
    if n > 0 {
      AllPlaced(observations, formations, horizons, n - 1);
      AtTells(observations, formations[n - 1], horizons, |horizons|);
      PlacedNext(Manifests(observations, formations, horizons, n - 1),
                 ManifestsAt(observations, formations[n - 1], horizons, |horizons|), formations, horizons, n);
    }
  }

  lemma {:induction false} PlacedNext(before: seq<Manifest>, more: seq<Manifest>, formations: seq<int>,
                                      horizons: seq<int>, n: nat)
    requires 0 < n <= |formations| && |before| == (n - 1) * |horizons| && |more| == |horizons|
    requires forall i: nat, j: nat | i < n - 1 && j < |horizons| :: Placed(before, formations, horizons, i, j)
    requires forall j | 0 <= j < |more| :: more[j].formation == formations[n - 1] && more[j].horizon == horizons[j]
    ensures |before + more| == n * |horizons|
    ensures forall i: nat, j: nat | i < n && j < |horizons| :: Placed(before + more, formations, horizons, i, j)
  {
    var h, ms := |horizons|, before + more;
    assert n * h == (n - 1) * h + h;
    forall i: nat, j: nat | i < n && j < h ensures Placed(ms, formations, horizons, i, j) {
      if i < n - 1 {
        assert Placed(before, formations, horizons, i, j);
      } else {
        assert i == n - 1 && i * h == |before|;
        assert ms[|before| + j] == more[j];
      }
    }
  }

  /** The manifests list every formation at every horizon, and nothing else. */
  lemma {:induction false} ManifestsTell(observations: seq<Observation>, horizons: seq<int>)
    ensures var formations := Formations(observations);
      var ms := Manifests(observations, formations, horizons, |formations|);
      && AreFormations(observations, formations)
      && |ms| == |formations| * |horizons| && (forall m | m in ms :: Told(observations, m))
      && forall i: nat, j: nat | i < |formations| && j < |horizons| :: Placed(ms, formations, horizons, i, j)
  {
    FormationsTell(observations);
    AllTold(observations, Formations(observations), horizons, |Formations(observations)|);
    AllPlaced(observations, Formations(observations), horizons, |Formations(observations)|);
  }

  // ----- what the report must have frozen -----

  predicate OldestFirst(fs: seq<FrozenSelection>) {
    forall i, j | 0 <= i < j < |fs| :: fs[i].formation < fs[j].formation
  }

  /** What a selection says of its formation, with this many names a leg. */
  ghost predicate Froze(observations: seq<Observation>, f: FrozenSelection) {
    exists group :: RankedAs(observations, f.formation, group) && f.eligible == |group|
      && EndsAre(group, f.perLeg, f.short, f.long)
  }

  /** The selections are those of the formations with enough names, from the earliest to the latest. */
  ghost predicate FreezesAll(observations: seq<Observation>, minimum: nat, fs: seq<FrozenSelection>) {
    && (forall i | 0 <= i < |fs| :: Froze(observations, fs[i]))
    && OldestFirst(fs)
    && (forall i | 0 <= i < |fs| :: |RowsAt(observations, fs[i].formation)| >= minimum)
    && forall o | o in observations && |RowsAt(observations, o.formation)| >= minimum ::
         exists i | 0 <= i < |fs| :: fs[i].formation == o.formation
  }

  lemma {:induction false} FrozenTells(observations: seq<Observation>, formation: int)
    ensures var fs := FrozenAt(Ranked(observations, formation), formation);
      if |RowsAt(observations, formation)| < 10 then fs == []
      else
        && |fs| == 1 && fs[0].formation == formation && Froze(observations, fs[0])
        && LegSize(fs[0].eligible, fs[0].perLeg)
  {
    RankedTells(observations, formation);
    var group := Ranked(observations, formation);
    SizeTells(|group|);
    EndsTell(group);
  }

  /** A list grows by the selection of a day, or stays. */
  predicate Grows(before: seq<FrozenSelection>, fs: seq<FrozenSelection>, day: int, listed: bool) {
    if listed then |fs| == |before| + 1 && fs[..|before|] == before && fs[|before|].formation == day else fs == before
  }

  /** Stage by stage, day by day. */
  predicate GrowsAt(stages: seq<seq<FrozenSelection>>, days: seq<int>, listed: seq<bool>, n: nat)
    requires n < |days| && |stages| == |days| + 1 && |listed| == |days|
  {
    Grows(stages[n], stages[n + 1], days[n], listed[n])
  }

  predicate GrowsThroughout(stages: seq<seq<FrozenSelection>>, days: seq<int>, listed: seq<bool>) {
    && |stages| == |days| + 1 && |listed| == |days| && stages[0] == []
    && forall n | 0 <= n < |days| :: GrowsAt(stages, days, listed, n)
  }

  lemma {:induction false} StageFrom(stages: seq<seq<FrozenSelection>>, days: seq<int>, listed: seq<bool>, n: nat,
                                     i: nat)
    returns (j: nat)
    requires GrowsThroughout(stages, days, listed) && n <= |days| && i < |stages[n]|
    ensures j < n && listed[j] && stages[n][i].formation == days[j]
    ensures i < |stages[j + 1]| && stages[n][i] == stages[j + 1][|stages[j + 1]| - 1]
  {
    assert GrowsAt(stages, days, listed, n - 1);
    if i < |stages[n - 1]| {
      j := StageFrom(stages, days, listed, n - 1, i);
      assert stages[n][i] == stages[n][..|stages[n - 1]|][i];
    } else {
      j := n - 1;
    }
  }

  lemma {:induction false} StageInOrder(stages: seq<seq<FrozenSelection>>, days: seq<int>, listed: seq<bool>, n: nat)
    requires GrowsThroughout(stages, days, listed) && n <= |days| && Increasing(days)
    ensures OldestFirst(stages[n])
  {
    if n > 0 {
      var before, fs := stages[n - 1], stages[n];
      assert GrowsAt(stages, days, listed, n - 1);
      StageInOrder(stages, days, listed, n - 1);
      forall i, j | 0 <= i < j < |fs| ensures fs[i].formation < fs[j].formation {
        assert fs[i] == fs[..|before|][i] == before[i];
        if j < |before| {
          assert fs[j] == fs[..|before|][j] == before[j];
        } else {
          var m := StageFrom(stages, days, listed, n - 1, i);
        }
      }
    }
  }

  lemma {:induction false} StageLists(stages: seq<seq<FrozenSelection>>, days: seq<int>, listed: seq<bool>, n: nat,
                                      j: nat)
    returns (i: nat)
    requires GrowsThroughout(stages, days, listed) && j < n <= |days| && listed[j]
    ensures i < |stages[n]| && stages[n][i].formation == days[j]
  {
    assert GrowsAt(stages, days, listed, n - 1);
    if j == n - 1 {
      i := |stages[j]|;
    } else {
      i := StageLists(stages, days, listed, n - 1, j);
      assert stages[n][i] == stages[n][..|stages[n - 1]|][i];
    }
  }

  /** The selections after each formation, and which formations have ten names. */
  ghost predicate AreStages(observations: seq<Observation>, formations: seq<int>, stages: seq<seq<FrozenSelection>>,
                            listed: seq<bool>) {
    && |stages| == |formations| + 1 && |listed| == |formations|
    && (forall n | 0 <= n < |stages| :: stages[n] == Derived(observations, formations, n))
    && forall n | 0 <= n < |listed| :: listed[n] <==> |RowsAt(observations, formations[n])| >= 10
  }

  lemma {:induction false} StagesAre(observations: seq<Observation>, formations: seq<int>)
    returns (stages: seq<seq<FrozenSelection>>, listed: seq<bool>)
    ensures AreStages(observations, formations, stages, listed)
  {
    stages := seq(|formations| + 1, n requires 0 <= n <= |formations| => Derived(observations, formations, n));
    listed := seq(|formations|, n requires 0 <= n < |formations| => |RowsAt(observations, formations[n])| >= 10);
  }

  lemma {:induction false} DerivedGrows(observations: seq<Observation>, formations: seq<int>, n: nat)
    requires n < |formations|
    ensures Grows(Derived(observations, formations, n), Derived(observations, formations, n + 1), formations[n],
                  |RowsAt(observations, formations[n])| >= 10)
  {
    FrozenTells(observations, formations[n]);
  }

  /** The selection of a formation of ten names or more, a fifth a leg. */
  ghost predicate Cuts(observations: seq<Observation>, f: FrozenSelection) {
    Froze(observations, f) && LegSize(f.eligible, f.perLeg) && |RowsAt(observations, f.formation)| >= 10
  }

  lemma {:induction false} DerivedLast(observations: seq<Observation>, formations: seq<int>, n: nat)
    requires n < |formations| && |RowsAt(observations, formations[n])| >= 10
    ensures var fs := Derived(observations, formations, n + 1);
      |fs| > 0 && Cuts(observations, fs[|fs| - 1])
  {
    FrozenTells(observations, formations[n]);
  }

  lemma {:induction false} StagesGrow(observations: seq<Observation>, formations: seq<int>,
                                      stages: seq<seq<FrozenSelection>>, listed: seq<bool>)
    requires AreStages(observations, formations, stages, listed)
    ensures GrowsThroughout(stages, formations, listed)
  {
    assert stages[0] == Derived(observations, formations, 0);
    forall n | 0 <= n < |formations| ensures GrowsAt(stages, formations, listed, n) {
      StageGrows(observations, formations, stages, listed, n);
    }
  }

  lemma {:induction false} StageGrows(observations: seq<Observation>, formations: seq<int>,
                                      stages: seq<seq<FrozenSelection>>, listed: seq<bool>, n: nat)
    requires AreStages(observations, formations, stages, listed) && n < |formations|
    ensures GrowsAt(stages, formations, listed, n)
  {
    DerivedGrows(observations, formations, n);
    assert stages[n] == Derived(observations, formations, n);
    assert stages[n + 1] == Derived(observations, formations, n + 1);
  }

  /** What stage j adds is a formation's selection, ranked and cut. */
  ghost predicate LastCut(observations: seq<Observation>, stages: seq<seq<FrozenSelection>>, j: nat)
    requires j + 1 < |stages|
  {
    stages[j + 1] != [] && Cuts(observations, stages[j + 1][|stages[j + 1]| - 1])
  }

  lemma {:induction false} LastIsCut(observations: seq<Observation>, formations: seq<int>,
                                     stages: seq<seq<FrozenSelection>>, j: nat)
    requires j < |formations| && |RowsAt(observations, formations[j])| >= 10
    requires j + 1 < |stages| && stages[j + 1] == Derived(observations, formations, j + 1)
    ensures LastCut(observations, stages, j)
  {
    DerivedLast(observations, formations, j);
  }

  lemma {:induction false} StageCuts(observations: seq<Observation>, stages: seq<seq<FrozenSelection>>,
                                     formations: seq<int>, listed: seq<bool>, i: nat)
    requires GrowsThroughout(stages, formations, listed) && i < |stages[|formations|]|
    requires forall j | 0 <= j < |formations| && listed[j] :: LastCut(observations, stages, j)
    ensures Cuts(observations, stages[|formations|][i])
  {
    var j := StageFrom(stages, formations, listed, |formations|, i);
    assert LastCut(observations, stages, j);
  }

  /** The ledger compares the report with the selections of every formation of ten names or more, a fifth a leg. */
  lemma {:induction false} LedgerTells(observations: seq<Observation>)
    ensures var fs := Derived(observations, Formations(observations), |Formations(observations)|);
      FreezesAll(observations, 10, fs) && forall i | 0 <= i < |fs| :: LegSize(fs[i].eligible, fs[i].perLeg)
  {
    var formations := Formations(observations);
    FormationsTell(observations);
    var fs := Derived(observations, formations, |formations|);
    var stages, listed := StagesAre(observations, formations);
    StagesGrow(observations, formations, stages, listed);
    assert stages[|formations|] == fs;
    StageInOrder(stages, formations, listed, |formations|);
    forall j | 0 <= j < |formations| && listed[j] ensures LastCut(observations, stages, j) {
      assert stages[j + 1] == Derived(observations, formations, j + 1);
      LastIsCut(observations, formations, stages, j);
    }
    forall i | 0 <= i < |fs| ensures Cuts(observations, fs[i]) {
      StageCuts(observations, stages, formations, listed, i);
    }
    forall o | o in observations && |RowsAt(observations, o.formation)| >= 10
      ensures exists i | 0 <= i < |fs| :: fs[i].formation == o.formation
    {
      assert o.formation in formations;
      var j :| 0 <= j < |formations| && formations[j] == o.formation;
      var i := StageLists(stages, formations, listed, |formations|, j);
    }
  }

  // ----- the locked portfolio -----

  /** From the earliest formation to the latest, within one from the lowest signal to the highest. */
  predicate ComesEarlier(a: Observation, b: Observation) {
    a.formation < b.formation || (a.formation == b.formation && ComesBefore(a, b))
  }

  function Enough(observations: seq<Observation>, minimum: nat): Observation -> bool {
    (o: Observation) => |RowsAt(observations, o.formation)| >= minimum
  }

  /** The slots hold the observations of the formations with enough names, in order and numbered within each. */
  ghost predicate Sliced(observations: seq<Observation>, minimum: nat, slots: seq<Slot>) {
    && multiset(RowsOf(slots)) == multiset(Filter(observations, Enough(observations, minimum)))
    && (forall i, j | 0 <= i < j < |slots| :: ComesEarlier(slots[i].row, slots[j].row))
    && forall i | 0 <= i < |slots| :: Numbered(slots, i)
  }

  /** The slot's number is how many of its formation come before it. */
  predicate Numbered(slots: seq<Slot>, i: nat)
    requires i < |slots|
  {
    slots[i].order == |RowsAt(RowsOf(slots[..i]), slots[i].row.formation)|
  }

  lemma CountTells(observations: seq<Observation>, formation: int)
    ensures CountOn(observations, formation) == |RowsAt(observations, formation)|
  {
    RankedTells(observations, formation);
  }

  lemma {:induction false} SlotRows(rows: seq<Observation>, n: nat)
    requires n <= |rows|
    ensures RowsOf(Slots(rows, n)) == rows[..n]
  {
    if n > 0 { SlotRows(rows, n - 1); }
  }

  lemma {:induction false} SlotOrders(rows: seq<Observation>, n: nat, i: nat)
    requires i < n <= |rows|
    ensures Slots(rows, n)[i].row == rows[i] && Slots(rows, n)[i].order == |RowsAt(rows[..i], rows[i].formation)|
  {
    if i < n - 1 { SlotOrders(rows, n - 1, i); } else { CountTells(rows[..i], rows[i].formation); }
  }

  lemma {:induction false} KeptTells(observations: seq<Observation>, minimum: nat)
    ensures Filter(observations, AboveFloor(observations, minimum))
         == Filter(observations, Enough(observations, minimum))
  {
    forall o: Observation ensures AboveFloor(observations, minimum)(o) <==> Enough(observations, minimum)(o) {
      CountTells(observations, o.formation);
    }
    FilterCongruent(observations, AboveFloor(observations, minimum), Enough(observations, minimum));
  }

  lemma {:induction false} SliceTells(observations: seq<Observation>, minimum: nat)
    ensures var slice := Slice(observations, minimum); Sliced(observations, minimum, Slots(slice, |slice|))
  {
    var slice := Slice(observations, minimum);
    KeptTells(observations, minimum);
    DateRankLeIsPreorder();
    SortSorts(Filter(observations, AboveFloor(observations, minimum)), DateRankLe);
    forall i, j | 0 <= i < j < |slice| ensures ComesEarlier(slice[i], slice[j]) {
      assert DateRankLe(slice[i], slice[j]);
    }
    SlotRows(slice, |slice|);
    assert slice[..|slice|] == slice;
    forall i | 0 <= i < |slice| ensures Slots(slice, |slice|)[i].row == slice[i] && Numbered(Slots(slice, |slice|), i) {
      NumberTells(slice, i);
    }
  }

  lemma {:induction false} NumberTells(slice: seq<Observation>, i: nat)
    requires i < |slice|
    ensures Slots(slice, |slice|)[i].row == slice[i] && Numbered(Slots(slice, |slice|), i)
  {
    var slots := Slots(slice, |slice|);
    SlotRows(slice, |slice|);
    SlotOrders(slice, |slice|, i);
    assert RowsOf(slots[..i]) == slice[..i] by { assert RowsOf(slots)[..i] == slice[..i]; }
  }

  /** The quantile's share of the names, rounded down, and one at the least. */
  predicate LegShare(quantile: real, n: nat, k: nat) {
    if quantile * n as real < 1.0 then k == 1 else k as real <= quantile * n as real < k as real + 1.0
  }

  lemma ShareTells(quantile: real, n: nat)
    requires quantile > 0.0
    ensures LegShare(quantile, n, LegCount(quantile, n))
  {
    var share := quantile * n as real;
    assert share >= 0.0;
  }

  /** A formation of the slice is in its date list exactly when it has enough names. */
  lemma {:induction false} DatesTell(observations: seq<Observation>, minimum: nat)
    requires minimum >= 1
    ensures var slice := Slice(observations, minimum); var days := Dates(Slots(slice, |slice|));
      && Increasing(days)
      && forall d :: d in days <==> |RowsAt(observations, d)| >= minimum
  {
    var slice := Slice(observations, minimum);
    var slots := Slots(slice, |slice|);
    var keys, days := KeyList(slots, SlotDate()), Dates(slots);
    assert TotalOrder(IntLe);
    SortSorts(keys, IntLe);
    KeysAreDistinct(slots, SlotDate());
    DistinctSort(keys, IntLe);
    forall i, j | 0 <= i < j < |days| ensures days[i] < days[j] { assert IntLe(days[i], days[j]); }
    forall d ensures d in days <==> |RowsAt(observations, d)| >= minimum {
      SortMembers(keys, IntLe, d);
      DateTells(observations, minimum, d);
    }
  }

  lemma {:induction false} InSlice(observations: seq<Observation>, minimum: nat, o: Observation)
    ensures o in Slice(observations, minimum) <==> o in observations && |RowsAt(observations, o.formation)| >= minimum
  {
    SortKeeps(Filter(observations, AboveFloor(observations, minimum)), DateRankLe, o);
    FilterKeeps(observations, AboveFloor(observations, minimum), o);
    CountTells(observations, o.formation);
  }

  lemma {:induction false} DateTells(observations: seq<Observation>, minimum: nat, d: int)
    requires minimum >= 1
    ensures var slice := Slice(observations, minimum);
      d in KeyList(Slots(slice, |slice|), SlotDate()) <==> |RowsAt(observations, d)| >= minimum
  {
    var slice := Slice(observations, minimum);
    var slots := Slots(slice, |slice|);
    KeyHasRow(slots, SlotDate(), d);
    if s :| s in slots && SlotDate()(s) == d {
      var i :| 0 <= i < |slots| && slots[i] == s;
      SlotOrders(slice, |slice|, i);
      InSlice(observations, minimum, slice[i]);
    }
    if |RowsAt(observations, d)| >= minimum {
      var o := RowsAt(observations, d)[0];
      FilterKeeps(observations, On(d), o);
      InSlice(observations, minimum, o);
      var i :| 0 <= i < |slice| && slice[i] == o;
      SlotOrders(slice, |slice|, i);
      assert SlotDate()(slots[i]) == d;
    }
  }

  /** The selection of a day, the quantile's share a leg. */
  ghost predicate Locks(observations: seq<Observation>, quantile: real, day: int, f: FrozenSelection) {
    f.formation == day && Froze(observations, f) && LegShare(quantile, f.eligible, f.perLeg)
  }

  lemma {:induction false} LockedIs(slots: seq<Slot>, n: nat, quantile: real, i: nat)
    requires i < n <= |Dates(slots)| && 0.0 < quantile <= 0.5
    ensures GroupOf(slots, Dates(slots)[i]) != []
    ensures Locked(slots, n, quantile)[i]
         == SelectionOf(GroupOf(slots, Dates(slots)[i]), Dates(slots)[i], quantile)
  {
    if i < n - 1 { LockedIs(slots, n - 1, quantile, i); } else { DateHasGroup(slots, i); }
  }

  lemma {:induction false} LockedTells(observations: seq<Observation>, minimum: nat, quantile: real, i: nat)
    requires minimum >= 1 && 0.0 < quantile <= 0.5
    requires var slice := Slice(observations, minimum); i < |Dates(Slots(slice, |slice|))|
    ensures var slice := Slice(observations, minimum); var slots := Slots(slice, |slice|);
      Locks(observations, quantile, Dates(slots)[i], Locked(slots, |Dates(slots)|, quantile)[i])
  {
    var slice := Slice(observations, minimum);
    var slots := Slots(slice, |slice|);
    var day := Dates(slots)[i];
    DatesTell(observations, minimum);
    assert day in Dates(slots);
    LockedIs(slots, |Dates(slots)|, quantile, i);
    SelectionTells(observations, minimum, day, quantile);
  }

  lemma {:induction false} SelectionTells(observations: seq<Observation>, minimum: nat, day: int, quantile: real)
    requires minimum >= 1 && 0.0 < quantile <= 0.5 && |RowsAt(observations, day)| >= minimum
    ensures var slice := Slice(observations, minimum); var group := GroupOf(Slots(slice, |slice|), day);
      group != [] && Locks(observations, quantile, day, SelectionOf(group, day, quantile))
  {
    CountTells(observations, day);
    GroupIsRanked(observations, minimum, day);
    RankedTells(observations, day);
    var group := Ranked(observations, day);
    LegWithin(quantile, |group|);
    ShareTells(quantile, |group|);
    assert EndsAre(group, LegCount(quantile, |group|), SelectionOf(group, day, quantile).short,
                   SelectionOf(group, day, quantile).long);
  }

  /** The portfolio freezes every formation with enough names, the quantile's share a leg. */
  lemma {:induction false} PortfolioTells(observations: seq<Observation>, minimum: nat, quantile: real)
    requires minimum >= 1 && 0.0 < quantile <= 0.5
    ensures var slice := Slice(observations, minimum); var slots := Slots(slice, |slice|);
      var fs := Locked(slots, |Dates(slots)|, quantile);
      && FreezesAll(observations, minimum, fs)
      && forall i | 0 <= i < |fs| :: LegShare(quantile, fs[i].eligible, fs[i].perLeg)
  {
    var slice := Slice(observations, minimum);
    var slots := Slots(slice, |slice|);
    var days := Dates(slots);
    var fs := Locked(slots, |days|, quantile);
    DatesTell(observations, minimum);
    forall i | 0 <= i < |days| ensures Locks(observations, quantile, days[i], fs[i]) {
      LockedTells(observations, minimum, quantile, i);
    }
    LocksAll(observations, minimum, quantile, days, fs);
  }

  lemma {:induction false} LocksAll(observations: seq<Observation>, minimum: nat, quantile: real, days: seq<int>,
                                    fs: seq<FrozenSelection>)
    requires |fs| == |days| && forall i | 0 <= i < |fs| :: Locks(observations, quantile, days[i], fs[i])
    requires Increasing(days) && forall d :: d in days <==> |RowsAt(observations, d)| >= minimum
    ensures FreezesAll(observations, minimum, fs)
    ensures forall i | 0 <= i < |fs| :: LegShare(quantile, fs[i].eligible, fs[i].perLeg)
  {
    forall o | o in observations && |RowsAt(observations, o.formation)| >= minimum
      ensures exists i | 0 <= i < |fs| :: fs[i].formation == o.formation
    {
      var i :| 0 <= i < |days| && days[i] == o.formation;
      assert fs[i].formation == o.formation;
    }
    forall i | 0 <= i < |fs| ensures |RowsAt(observations, fs[i].formation)| >= minimum {
      assert Locks(observations, quantile, days[i], fs[i]) && days[i] in days;
    }
  }

  /** The frozen names all have a return. */
  predicate AllReturned(f: FrozenSelection, returns_: map<(int, string), real>) {
    && (forall i | 0 <= i < |f.short| :: (f.formation, f.short[i]) in returns_)
    && forall i | 0 <= i < |f.long| :: (f.formation, f.long[i]) in returns_
  }

  lemma ReturnedTells(f: FrozenSelection, returns_: map<(int, string), real>)
    ensures Resolved(f, returns_) <==> AllReturned(f, returns_)
  {
    if Resolved(f, returns_) {
      var both := f.short + f.long;
      forall i | 0 <= i < |f.short| ensures (f.formation, f.short[i]) in returns_ { assert f.short[i] in both; }
      forall i | 0 <= i < |f.long| ensures (f.formation, f.long[i]) in returns_ { assert f.long[i] in both; }
    }
  }

  ghost predicate Admits(fs: seq<FrozenSelection>, returns_: map<(int, string), real>, n: nat, d: int)
    requires n <= |fs|
  {
    exists i | 0 <= i < n :: fs[i].formation == d && AllReturned(fs[i], returns_)
  }

  lemma {:induction false} AdmittedDay(fs: seq<FrozenSelection>, returns_: map<(int, string), real>, n: nat, d: int)
    requires n <= |fs|
    ensures d in AdmittedDates(fs, returns_, n) <==> Admits(fs, returns_, n, d)
  {
    if n > 0 {
      AdmittedDay(fs, returns_, n - 1, d);
      ReturnedTells(fs[n - 1], returns_);
    }
  }

  lemma {:induction false} AdmittedInOrder(fs: seq<FrozenSelection>, returns_: map<(int, string), real>, n: nat)
    requires n <= |fs| && OldestFirst(fs)
    ensures Increasing(AdmittedDates(fs, returns_, n))
  {
    if n > 0 {
      AdmittedInOrder(fs, returns_, n - 1);
      var before := AdmittedDates(fs, returns_, n - 1);
      var days := AdmittedDates(fs, returns_, n);
      forall i, j | 0 <= i < j < |days| ensures days[i] < days[j] {
        assert days[i] == before[i] && before[i] in before;
        if j == |before| {
          AdmittedDay(fs, returns_, n - 1, before[i]);
          var k :| 0 <= k < n - 1 && fs[k].formation == before[i] && AllReturned(fs[k], returns_);
          assert days[j] == fs[n - 1].formation;
        } else {
          assert days[j] == before[j] && before[i] < before[j];
        }
      }
    }
  }

  /** The admitted dates are those of the selections with every return, in their order. */
  lemma {:induction false} AdmittedTells(fs: seq<FrozenSelection>, returns_: map<(int, string), real>)
    requires OldestFirst(fs)
    ensures var days := AdmittedDates(fs, returns_, |fs|);
      && Increasing(days)
      && forall d :: d in days <==> exists i | 0 <= i < |fs| :: fs[i].formation == d && AllReturned(fs[i], returns_)
  {
    AdmittedInOrder(fs, returns_, |fs|);
    forall d ensures d in AdmittedDates(fs, returns_, |fs|) <==> Admits(fs, returns_, |fs|, d) {
      AdmittedDay(fs, returns_, |fs|, d);
    }
  }
}
