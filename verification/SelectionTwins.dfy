/** The same tails drawn by the locked portfolio and by the daily reference. */
module SelectionTwins {
  import opened Optional
  import opened Ordering
  import opened Grouping
  import opened Selection
  import opened LockedPortfolio
  import Books

  // ----- the locked portfolio -----

  /** At one fifth, above the ten-name floor, the count is the ledger's. */
  lemma OneFifth(n: nat)
    requires n >= MINIMUM_NAMES
    ensures LegCount(0.2, n) == NamesPerLeg(n)
  {
    assert 0.2 * n as real == n as real / 5.0;
    assert (n / 5) as real <= n as real / 5.0 < (n / 5 + 1) as real;
  }

  /** The research report's slice: the ten-name floor, ordered and numbered. */
  function ReportSlots(observations: seq<Observation>): seq<Slot> {
    var slice := Slice(observations, MINIMUM_NAMES);
    Slots(slice, |slice|)
  }

  /** And what it freezes of it, the same at every horizon. */
  function ReportSelections(observations: seq<Observation>): seq<FrozenSelection> {
    var slots := ReportSlots(observations);
    Locked(slots, |Dates(slots)|, 0.2)
  }

  function KeptDate(observations: seq<Observation>): int -> bool {
    (d: int) => CountOn(observations, d) >= MINIMUM_NAMES
  }

  lemma RankedCount(observations: seq<Observation>, formation: int)
    ensures |Ranked(observations, formation)| == CountOn(observations, formation)
  {
    RankLeIsPreorder();
    SortSorts(Members(observations, FormationOf(), formation), RankLe);
  }

  /** A date is in the report's slice exactly when it is above the floor. */
  lemma DateListed(observations: seq<Observation>, d: int)
    ensures d in KeyList(ReportSlots(observations), SlotDate()) <==> KeptDate(observations)(d)
  {
    var slice, slots := Slice(observations, MINIMUM_NAMES), ReportSlots(observations);
    KeyHasMembers(slots, SlotDate(), d);
    assert slice[..|slice|] == slice;
    SlotGroups(slice, |slice|, d);
    if KeptDate(observations)(d) {
      SliceGroup(observations, MINIMUM_NAMES, d);
      RankedCount(observations, d);
    } else if Members(slice, FormationOf(), d) != [] {
      var o := Members(slice, FormationOf(), d)[0];
      MembersHaveKey(slice, FormationOf(), d, 0);
      var kept := Filter(observations, AboveFloor(observations, MINIMUM_NAMES));
      SortKeeps(kept, DateRankLe, o);
      FilterKeeps(observations, AboveFloor(observations, MINIMUM_NAMES), o);
      assert false;
    }
  }

  lemma {:induction false} FilterDistinct<T>(s: seq<T>, keep: T -> bool)
    requires Distinct(s)
    ensures Distinct(Filter(s, keep))
  {
    if s != [] {
      var front, last := s[..|s| - 1], s[|s| - 1];
      FilterDistinct(front, keep);
      FilterKeeps(front, keep, last);
    }
  }

  /** The report goes through the formations above the floor, in order. */
  lemma ReportDates(observations: seq<Observation>)
    ensures Dates(ReportSlots(observations)) == Filter(Formations(observations), KeptDate(observations))
  {
    var all, listed := KeyList(observations, FormationOf()), KeyList(ReportSlots(observations), SlotDate());
    var kept := Filter(all, KeptDate(observations));
    assert TotalOrder(IntLe);
    KeysAreDistinct(observations, FormationOf());
    KeysAreDistinct(ReportSlots(observations), SlotDate());
    FilterDistinct(all, KeptDate(observations));
    forall d ensures d in listed <==> d in kept {
      DateListed(observations, d);
      FilterKeeps(all, KeptDate(observations), d);
      KeyHasMembers(observations, FormationOf(), d);
    }
    SameMembersSameMultiset(listed, kept);
    SortIgnoresOrder(listed, kept, IntLe);
    FilterOfSort(all, KeptDate(observations), IntLe);
  }

  lemma {:induction false} DerivedPrefix(observations: seq<Observation>, dates: seq<int>, more: seq<int>, n: nat)
    requires n <= |dates|
    ensures Derived(observations, dates + more, n) == Derived(observations, dates, n)
  {
    if n > 0 { DerivedPrefix(observations, dates, more, n - 1); }
  }

  /** Formations below the floor freeze nothing and can be passed over. */
  lemma {:induction false} PassedOver(observations: seq<Observation>, formations: seq<int>, n: nat)
    requires n <= |formations|
    ensures var kept := Filter(formations[..n], KeptDate(observations));
      Derived(observations, formations, n) == Derived(observations, kept, |kept|)
  {
    if n > 0 {
      var m, keep := n - 1, KeptDate(observations);
      var day, kept := formations[m], Filter(formations[..m], keep);
      PassedOver(observations, formations, m);
      FilterNext(formations, m, keep);
      assert Derived(observations, formations, n) == Derived(observations, kept, |kept|)
          + FrozenAt(Ranked(observations, day), day);
      RankedCount(observations, day);
      if keep(day) {
        DerivedNext(observations, kept, day);
        assert Filter(formations[..n], keep) == kept + [day];
      } else {
        assert Filter(formations[..n], keep) == kept;
      }
    }
  }

  lemma DerivedNext(observations: seq<Observation>, dates: seq<int>, day: int)
    ensures var more := dates + [day];
      Derived(observations, more, |more|) == Derived(observations, dates, |dates|)
          + FrozenAt(Ranked(observations, day), day)
  {
    DerivedPrefix(observations, dates, [day], |dates|);
  }

  lemma {:induction false} LockedIsDerived(observations: seq<Observation>, n: nat)
    requires n <= |Dates(ReportSlots(observations))|
    ensures var slots := ReportSlots(observations);
      Locked(slots, n, 0.2) == Derived(observations, Dates(slots), n)
  {
    if n > 0 {
      var slots := ReportSlots(observations);
      var day := Dates(slots)[n - 1];
      LockedIsDerived(observations, n - 1);
      assert Preorder(IntLe);
      SortMembers(KeyList(slots, SlotDate()), IntLe, day);
      DateListed(observations, day);
      OneSelection(observations, day);
    }
  }

  lemma OneSelection(observations: seq<Observation>, day: int)
    requires KeptDate(observations)(day)
    ensures var group := GroupOf(ReportSlots(observations), day);
      group == Ranked(observations, day) && group != [] && FrozenAt(group, day) == [SelectionOf(group, day, 0.2)]
  {
    GroupIsRanked(observations, MINIMUM_NAMES, day);
    RankedCount(observations, day);
    var group := Ranked(observations, day);
    OneFifth(|group|);
    LegsFit(|group|);
  }

  /** The report and the ledger rank and cut the same observations independently and freeze the same selections. */
  lemma SelectionsAgree(observations: seq<Observation>)
    ensures ReportSelections(observations)
      == Derived(observations, Formations(observations), |Formations(observations)|)
  {
    var slots, formations := ReportSlots(observations), Formations(observations);
    LockedIsDerived(observations, |Dates(slots)|);
    ReportDates(observations);
    PassedOver(observations, formations, |formations|);
    assert formations[..|formations|] == formations;
  }

  /** So the ledger's closing comparison accepts a report frozen from the same observations, at whatever horizons. */
  lemma ReportIsAccepted(observations: seq<Observation>, horizons: seq<int>, frozen: map<int, seq<FrozenSelection>>)
    requires forall i | 0 <= i < |horizons| ::
        horizons[i] in frozen && frozen[horizons[i]] == ReportSelections(observations)
    ensures ReportAgrees(frozen, horizons, Derived(observations, Formations(observations), |Formations(observations)|))
  {
    SelectionsAgree(observations);
  }

  // ----- the daily reference -----

  /** `int(0.2 * n)` names a leg above the floor. */
  function ReferenceCount(n: nat): nat { if n >= MINIMUM_NAMES then n / 5 else 0 }

  /** The reference looks a name up in the short set first. */
  function ReferenceLeg(name: string, short: set<string>, long: set<string>): Option<Leg> {
    if name in short then Some(Books.Short) else if name in long then Some(Books.Long) else None
  }

  function NameSet(s: seq<Observation>): set<string> { set o | o in s :: o.mTicker }

  /** The status the reference expects every cohort to have. */
  function ReferenceStatus(n: nat): CohortStatus { if ReferenceCount(n) > 0 then Admitted else BelowMinimum }

  /** Every name gets the same leg from both. */
  lemma LegsAgree(group: seq<Observation>, i: nat)
    requires DistinctNames(group) && i < |group|
    ensures var k := ReferenceCount(|group|);
      && 2 * k <= |group|
      && ReferenceLeg(group[i].mTicker, NameSet(group[..k]), if k > 0 then NameSet(group[|group| - k..]) else {})
        == LegOf(group[i].mTicker, Names(ShortTail(group)), Names(LongTail(group)))
  {
    LegsFit(|group|);
    assert ReferenceCount(|group|) == NamesPerLeg(|group|);
    LegByPosition(group, i);
    NameSetIsNames(ShortTail(group), group[i].mTicker);
    NameSetIsNames(LongTail(group), group[i].mTicker);
  }

  lemma NameSetIsNames(s: seq<Observation>, name: string)
    ensures name in NameSet(s) <==> name in Names(s)
  {
    if name in NameSet(s) {
      var o :| o in s && o.mTicker == name;
      var i :| 0 <= i < |s| && s[i] == o;
      assert Names(s)[i] == name;
    }
    if name in Names(s) {
      var i :| 0 <= i < |Names(s)| && Names(s)[i] == name;
      assert s[i] in s;
    }
  }

  /** The reference accepts the cohort's status exactly when no selected path was excluded: above the floor, exactly
      when every selected path is resolved. */
  lemma StatusesAgree(group: seq<Observation>, horizon: int)
    ensures StatusOf(group, horizon) == ReferenceStatus(|group|) <==>
      |group| < MINIMUM_NAMES || forall o | o in ShortTail(group) + LongTail(group) ::
          StatusOn(o, horizon) == ResolvedNonterminal
  {
    AdmittedIffResolved(group, horizon);
  }

  /** One of ten names whose path never resolved, told apart by their length. */
  function Stranded(i: nat): Observation { Observation(0, seq(i + 1, _ => 'A'), "", i as real, map[]) }

  function StrandedTen(): (s: seq<Observation>)
    ensures |s| == 10 && forall i | 0 <= i < 10 :: s[i] == Stranded(i)
  {
    seq(10, i requires 0 <= i < 10 => Stranded(i))
  }

  /** Ten such names: the ledger excludes the cohort, the reference expects it admitted. */
  lemma UnresolvedCohortParts(horizon: int)
    ensures var group := StrandedTen();
      DistinctNames(group) && StatusOf(group, horizon) == UnresolvedExcluded && ReferenceStatus(|group|) == Admitted
  {
    var group := StrandedTen();
    forall i, j | 0 <= i < j < 10 ensures group[i].mTicker != group[j].mTicker {
      assert |Stranded(i).mTicker| == i + 1 && |Stranded(j).mTicker| == j + 1;
    }
    var selected := ShortTail(group) + LongTail(group);
    forall i | 0 <= i < |selected| ensures StatusOn(selected[i], horizon) == NotResolved {
      assert selected[i] in group;
    }
    assert |selected| == 4 && StatusOn(selected[0], horizon) == NotResolved;
  }
}
