/** Ranking a cross-section and freezing its two tails, before anyone looks at the returns. */
module Selection {
  import opened Optional
  import opened Ordering
  import opened TextOrder
  import opened Grouping
  import Books

  type Leg = Books.Leg

  datatype PathStatus = ResolvedNonterminal | TerminalNotSupported | NotResolved

  /** One formation's observation of one name; `paths` holds the status of its holding path by horizon. */
  datatype Observation = Observation(
    formation: int, mTicker: string, ticker: string, signal: real, paths: map<int, PathStatus>)

  function StatusOn(o: Observation, horizon: int): PathStatus {
    if horizon in o.paths then o.paths[horizon] else NotResolved
  }

  /** The order of the key (signal, m_ticker). */
  predicate RankLe(a: Observation, b: Observation) {
    a.signal < b.signal || (a.signal == b.signal && TextLe(a.mTicker, b.mTicker))
  }

  lemma RankLeIsPreorder()
    ensures Preorder(RankLe)
  {
    TextLeIsTotalOrder();
  }

  /** No name appears twice. */
  predicate DistinctNames(group: seq<Observation>) {
    forall i, j | 0 <= i < j < |group| :: group[i].mTicker != group[j].mTicker
  }

  /** Distinct names are told apart by the sort key. */
  lemma NamesSeparate(group: seq<Observation>)
    requires DistinctNames(group)
    ensures Separates(RankLe, group)
  {
    TextLeIsTotalOrder();
    forall a, b | a in group && b in group && RankLe(a, b) && RankLe(b, a) ensures a == b {
      assert a.mTicker == b.mTicker;
      var i :| 0 <= i < |group| && group[i] == a;
      var j :| 0 <= j < |group| && group[j] == b;
      assert i == j;
    }
  }

  function FormationOf(): Observation -> int { (o: Observation) => o.formation }

  function Formations(observations: seq<Observation>): seq<int> { Sort(KeyList(observations, FormationOf()), IntLe) }

  /** One formation's cross-section, ranked. */
  function Ranked(observations: seq<Observation>, formation: int): seq<Observation> {
    Sort(Members(observations, FormationOf(), formation), RankLe)
  }

  const MINIMUM_NAMES := 10

  /** `max(1, int(0.2 * n))` names a leg, none below the ten-name floor. */
  function NamesPerLeg(n: nat): nat { if n < MINIMUM_NAMES then 0 else if n / 5 > 1 then n / 5 else 1 }

  function ShortTail(group: seq<Observation>): seq<Observation>
  {
    LegsFit(|group|);
    group[..NamesPerLeg(|group|)]
  }

  function LongTail(group: seq<Observation>): seq<Observation>
  {
    LegsFit(|group|);
    group[|group| - NamesPerLeg(|group|)..]
  }

  /** Two legs never take more than the cross-section has. */
  lemma LegsFit(n: nat)
    ensures 2 * NamesPerLeg(n) <= n
  {}

  function Names(s: seq<Observation>): (r: seq<string>)
    ensures |r| == |s| && forall i | 0 <= i < |s| :: r[i] == s[i].mTicker
  {
    seq(|s|, i requires 0 <= i < |s| => s[i].mTicker)
  }

  /** `selected.get(name)`, where the long names were entered after the short ones. */
  function LegOf(name: string, short: seq<string>, long: seq<string>): Option<Leg> {
    if name in long then Some(Books.Long) else if name in short then Some(Books.Short) else None
  }

  datatype CohortStatus = BelowMinimum | Admitted | TerminalExcluded | UnresolvedExcluded

  datatype Constituent = Constituent(rank: nat, mTicker: string, signal: real, leg: Option<Leg>, status: PathStatus)

  datatype Manifest = Manifest(
    formation: int, horizon: int, eligible: nat, perLeg: nat, status: CohortStatus,
    short: seq<string>, long: seq<string>, ranked: seq<Constituent>)

  predicate AnyStatus(s: seq<Observation>, horizon: int, status: PathStatus) {
    exists i | 0 <= i < |s| :: StatusOn(s[i], horizon) == status
  }

  function StatusOf(group: seq<Observation>, horizon: int): CohortStatus {
    var selected := ShortTail(group) + LongTail(group);
    if NamesPerLeg(|group|) == 0 then BelowMinimum
    else if AnyStatus(selected, horizon, TerminalNotSupported) then TerminalExcluded
    else if AnyStatus(selected, horizon, NotResolved) then UnresolvedExcluded else Admitted
  }

  function ConstituentOf(group: seq<Observation>, horizon: int, i: nat): Constituent
    requires i < |group|
  {
    Constituent(i + 1, group[i].mTicker, group[i].signal,
                LegOf(group[i].mTicker, Names(ShortTail(group)), Names(LongTail(group))), StatusOn(group[i], horizon))
  }

  function Constituents(group: seq<Observation>, horizon: int): (r: seq<Constituent>)
    ensures |r| == |group| && forall i | 0 <= i < |group| :: r[i] == ConstituentOf(group, horizon, i)
  {
    seq(|group|, i requires 0 <= i < |group| => ConstituentOf(group, horizon, i))
  }

  function ManifestOf(group: seq<Observation>, formation: int, horizon: int): Manifest {
    Manifest(formation, horizon, |group|, NamesPerLeg(|group|), StatusOf(group, horizon),
             Names(ShortTail(group)), Names(LongTail(group)), Constituents(group, horizon))
  }

  function ManifestsAt(observations: seq<Observation>, formation: int, horizons: seq<int>, n: nat): seq<Manifest>
    requires n <= |horizons|
  {
    if n == 0 then []
    else
      var earlier := ManifestsAt(observations, formation, horizons, n - 1);
      earlier + [ManifestOf(Ranked(observations, formation), formation, horizons[n - 1])]
  }

  function Manifests(observations: seq<Observation>, formations: seq<int>, horizons: seq<int>, n: nat): seq<Manifest>
    requires n <= |formations|
  {
    if n == 0 then []
    else
      Manifests(observations, formations, horizons, n - 1)
      + ManifestsAt(observations, formations[n - 1], horizons, |horizons|)
  }

  method RankConstituents(group: seq<Observation>, horizon: int, short: seq<string>, long: seq<string>)
    returns (ranked: seq<Constituent>)
    requires short == Names(ShortTail(group)) && long == Names(LongTail(group))
    ensures ranked == Constituents(group, horizon)
  {
    ranked := [];
    for i := 0 to |group|
      invariant |ranked| == i && forall j | 0 <= j < i :: ranked[j] == ConstituentOf(group, horizon, j)
    {
      ranked := ranked + [Constituent(i + 1, group[i].mTicker, group[i].signal, LegOf(group[i].mTicker, short, long),
                                      StatusOn(group[i], horizon))];
    }
    assert ranked == Constituents(group, horizon);
  }

  /** What one formation freezes, as the source report lists it. */
  datatype FrozenSelection = FrozenSelection(
    formation: int, eligible: nat, perLeg: nat, short: seq<string>, long: seq<string>)

  /** Nothing below the floor. */
  function FrozenAt(group: seq<Observation>, formation: int): seq<FrozenSelection> {
    if NamesPerLeg(|group|) == 0 then []
    else [FrozenSelection(formation, |group|, NamesPerLeg(|group|), Names(ShortTail(group)), Names(LongTail(group)))]
  }

  /** The selections of the first n formations. */
  function Derived(observations: seq<Observation>, formations: seq<int>, n: nat): seq<FrozenSelection>
    requires n <= |formations|
  {
    if n == 0 then []
    else Derived(observations, formations, n - 1) + FrozenAt(Ranked(observations, formations[n - 1]), formations[n - 1])
  }

  /** The report froze the same selections at every horizon. */
  predicate ReportAgrees(frozen: map<int, seq<FrozenSelection>>, horizons: seq<int>, derived: seq<FrozenSelection>) {
    forall i | 0 <= i < |horizons| :: horizons[i] in frozen && frozen[horizons[i]] == derived
  }

  /** `_build_selection_manifest`: every formation, ranked, at every horizon, unless the selections differ from those
      the source report froze. */
  method BuildSelectionManifest(observations: seq<Observation>, horizons: seq<int>,
                                frozen: map<int, seq<FrozenSelection>>)
    returns (r: Option<seq<Manifest>>)
    ensures var formations := Formations(observations);
      r.Some? <==> ReportAgrees(frozen, horizons, Derived(observations, formations, |formations|))
    ensures var formations := Formations(observations);
      r.Some? ==> r.value == Manifests(observations, formations, horizons, |formations|)
  {
    var groups, order := GroupBy(observations, FormationOf());
    var manifests, derived := ManifestFormations(observations, groups, Sort(order, IntLe), horizons);
    var agrees := CompareReport(frozen, horizons, derived);
    r := if agrees then Some(manifests) else None;
  }

  method CompareReport(frozen: map<int, seq<FrozenSelection>>, horizons: seq<int>, derived: seq<FrozenSelection>)
    returns (agrees: bool)
    ensures agrees <==> ReportAgrees(frozen, horizons, derived)
  {
    for i := 0 to |horizons|
      invariant forall j | 0 <= j < i :: horizons[j] in frozen && frozen[horizons[j]] == derived
    {
      if horizons[i] !in frozen || frozen[horizons[i]] != derived { return false; }
    }
    agrees := true;
  }

  method ManifestFormations(ghost observations: seq<Observation>, groups: map<int, seq<Observation>>,
                            formations: seq<int>, horizons: seq<int>)
    returns (manifests: seq<Manifest>, derived: seq<FrozenSelection>)
    requires Files(groups, observations, FormationOf()) && formations == Formations(observations)
    ensures manifests == Manifests(observations, formations, horizons, |formations|)
    ensures derived == Derived(observations, formations, |formations|)
  {
    manifests, derived := [], [];
    for n := 0 to |formations|
      invariant manifests == Manifests(observations, formations, horizons, n)
      invariant derived == Derived(observations, formations, n)
    {
      FormationIsListed(observations, n);
      var more, selection := ManifestFormation(observations, groups, formations[n], horizons);
      manifests, derived := manifests + more, derived + selection;
    }
  }

  method ManifestFormation(ghost observations: seq<Observation>, groups: map<int, seq<Observation>>, formation: int,
                           horizons: seq<int>) returns (manifests: seq<Manifest>, selection: seq<FrozenSelection>)
    requires Files(groups, observations, FormationOf()) && Members(observations, FormationOf(), formation) != []
    ensures manifests == ManifestsAt(observations, formation, horizons, |horizons|)
    ensures selection == FrozenAt(Ranked(observations, formation), formation)
  {
    FiledRows(groups, observations, FormationOf(), formation);
    manifests := ManifestHorizons(observations, groups[formation], formation, horizons);
    selection := FrozenAt(Sort(groups[formation], RankLe), formation);
  }

  lemma FormationIsListed(observations: seq<Observation>, n: nat)
    requires n < |Formations(observations)|
    ensures Members(observations, FormationOf(), Formations(observations)[n]) != []
  {
    assert Preorder(IntLe);
    SortMembers(KeyList(observations, FormationOf()), IntLe, Formations(observations)[n]);
    KeyHasMembers(observations, FormationOf(), Formations(observations)[n]);
  }

  method ManifestHorizons(ghost observations: seq<Observation>, rows: seq<Observation>, formation: int,
                          horizons: seq<int>)
    returns (manifests: seq<Manifest>)
    requires rows == Members(observations, FormationOf(), formation)
    ensures manifests == ManifestsAt(observations, formation, horizons, |horizons|)
  {
    var group := Sort(rows, RankLe);
    manifests := [];
    for n := 0 to |horizons|
      invariant manifests == ManifestsAt(observations, formation, horizons, n)
    {
      var short, long := Names(ShortTail(group)), Names(LongTail(group));
      var ranked := RankConstituents(group, horizons[n], short, long);
      manifests := manifests
        + [Manifest(formation, horizons[n], |group|, NamesPerLeg(|group|), StatusOf(group, horizons[n]), short, long,
                    ranked)];
    }
  }

  // ----- the tails -----

  /** Above the floor the two tails are disjoint, every name outside the short tail ranks above all of it, and
      every name outside the long tail ranks below all of it. */
  lemma TailsBracket(rows: seq<Observation>, i: nat, j: nat)
    requires DistinctNames(rows) && i < |rows| && j < |rows|
    ensures var group := Sort(rows, RankLe); |group| == |rows|
    ensures var group, k := Sort(rows, RankLe), NamesPerLeg(|rows|);
      && (i < k <= j ==> Below(group[i], group[j]))
      && (i < |rows| - k <= j ==> Below(group[i], group[j]))
      && (LegOf(group[i].mTicker, Names(ShortTail(group)), Names(LongTail(group)))
          == if i < k then Some(Books.Short) else if i >= |rows| - k then Some(Books.Long) else None)
  {
    var group := Sort(rows, RankLe);
    RankLeIsPreorder();
    SortSorts(rows, RankLe);
    SortedNamesDistinct(rows);
    LegsFit(|rows|);
    if i < j { StrictlyRanked(group, i, j); }
    LegByPosition(group, i);
  }

  /** Strictly before in the frozen order. */
  predicate Below(a: Observation, b: Observation) { RankLe(a, b) && !RankLe(b, a) }

  lemma StrictlyRanked(group: seq<Observation>, i: nat, j: nat)
    requires DistinctNames(group) && Ordered(group, RankLe) && i < j < |group|
    ensures Below(group[i], group[j])
  {
    TextLeIsTotalOrder();
    assert RankLe(group[i], group[j]) && group[i].mTicker != group[j].mTicker;
  }

  lemma SortedNamesDistinct(rows: seq<Observation>)
    requires DistinctNames(rows)
    ensures DistinctNames(Sort(rows, RankLe)) && |Sort(rows, RankLe)| == |rows|
  {
    RankLeIsPreorder();
    SortSorts(rows, RankLe);
    DistinctIffNames(rows);
    MappedSameMultiset(rows, Sort(rows, RankLe));
    DistinctIffNames(Sort(rows, RankLe));
  }

  function NameOf(o: Observation): string { o.mTicker }

  lemma DistinctIffNames(s: seq<Observation>)
    ensures DistinctNames(s) <==> Distinct(Mapped(s, NameOf))
  {}

  lemma MappedSameMultiset(s: seq<Observation>, t: seq<Observation>)
    requires multiset(s) == multiset(t)
    ensures Distinct(Mapped(s, NameOf)) <==> Distinct(Mapped(t, NameOf))
  {
    MappedKeepsMultiset(s, t, NameOf);
    DistinctCounts(Mapped(s, NameOf));
    DistinctCounts(Mapped(t, NameOf));
  }

  lemma LegByPosition(group: seq<Observation>, i: nat)
    requires DistinctNames(group) && i < |group|
    ensures group[i].mTicker in Names(ShortTail(group)) <==> i < NamesPerLeg(|group|)
    ensures group[i].mTicker in Names(LongTail(group)) <==> i >= |group| - NamesPerLeg(|group|)
    ensures var k := NamesPerLeg(|group|);
      LegOf(group[i].mTicker, Names(ShortTail(group)), Names(LongTail(group)))
        == if i < k then Some(Books.Short) else if i >= |group| - k then Some(Books.Long) else None
  {
    LegsFit(|group|);
    var n, k := |group|, NamesPerLeg(|group|);
    var name, short, long := group[i].mTicker, Names(ShortTail(group)), Names(LongTail(group));
    assert forall x | 0 <= x < k :: short[x] == group[x].mTicker;
    assert forall x | 0 <= x < k :: long[x] == group[n - k + x].mTicker;
    if i < k { assert short[i] == name; }
    if i >= n - k { assert long[i - (n - k)] == name; }
    assert name in short ==> i < k;
    assert name in long ==> i >= n - k;
  }

  // ----- what the selection depends on -----

  /** The manifests do not depend on the order the observations are handed over in. */
  lemma RankedIgnoresOrder(p: seq<Observation>, q: seq<Observation>, formation: int)
    requires multiset(p) == multiset(q) && DistinctNames(Members(p, FormationOf(), formation))
    ensures Ranked(p, formation) == Ranked(q, formation)
  {
    MembersIgnoreOrder(p, q, FormationOf(), formation);
    NamesSeparate(Members(p, FormationOf(), formation));
    RankLeIsPreorder();
    SortIgnoresArrangement(Members(p, FormationOf(), formation), Members(q, FormationOf(), formation), RankLe);
  }

  lemma FormationsIgnoreOrder(p: seq<Observation>, q: seq<Observation>)
    requires multiset(p) == multiset(q)
    ensures Formations(p) == Formations(q)
  {
    KeysAreDistinct(p, FormationOf());
    KeysAreDistinct(q, FormationOf());
    SameKeys(p, q, FormationOf());
    assert TotalOrder(IntLe);
    SameMembersSameMultiset(KeyList(p, FormationOf()), KeyList(q, FormationOf()));
    SortIgnoresOrder(KeyList(p, FormationOf()), KeyList(q, FormationOf()), IntLe);
  }

  predicate NamesDistinctEverywhere(observations: seq<Observation>) {
    forall i, j | 0 <= i < j < |observations| ::
      observations[i].formation == observations[j].formation ==> observations[i].mTicker != observations[j].mTicker
  }

  lemma ManifestsIgnoreOrder(p: seq<Observation>, q: seq<Observation>, horizons: seq<int>)
    requires multiset(p) == multiset(q) && NamesDistinctEverywhere(p)
    ensures Manifests(p, Formations(p), horizons, |Formations(p)|)
        == Manifests(q, Formations(q), horizons, |Formations(q)|)
  {
    FormationsIgnoreOrder(p, q);
    var formations := Formations(p);
    forall i | 0 <= i < |formations| ensures Ranked(p, formations[i]) == Ranked(q, formations[i]) {
      GroupNamesDistinct(p, formations[i]);
      RankedIgnoresOrder(p, q, formations[i]);
    }
    RankingsByIndex(p, q, formations, |formations|);
    SameRankingsSameManifests(p, q, formations, horizons, |formations|);
  }

  /** The first n formations rank the same names. */
  predicate SameRankings(p: seq<Observation>, q: seq<Observation>, formations: seq<int>, n: nat)
    requires n <= |formations|
  {
    n > 0 ==> SameRankings(p, q, formations, n - 1) && Ranked(p, formations[n - 1]) == Ranked(q, formations[n - 1])
  }

  lemma {:induction false} RankingsByIndex(p: seq<Observation>, q: seq<Observation>, formations: seq<int>, n: nat)
    requires n <= |formations| && forall i | 0 <= i < n :: Ranked(p, formations[i]) == Ranked(q, formations[i])
    ensures SameRankings(p, q, formations, n)
  {
    if n > 0 { RankingsByIndex(p, q, formations, n - 1); }
  }

  lemma {:induction false} SameRankingsSameManifests(p: seq<Observation>, q: seq<Observation>, formations: seq<int>,
                                                     horizons: seq<int>, n: nat)
    requires n <= |formations| && SameRankings(p, q, formations, n)
    ensures Manifests(p, formations, horizons, n) == Manifests(q, formations, horizons, n)
  {
    if n > 0 {
      SameRankingsSameManifests(p, q, formations, horizons, n - 1);
      SameAtHorizons(p, q, formations[n - 1], horizons, |horizons|);
    }
  }

  lemma {:induction false} SameAtHorizons(p: seq<Observation>, q: seq<Observation>, formation: int,
                                          horizons: seq<int>, n: nat)
    requires n <= |horizons| && Ranked(p, formation) == Ranked(q, formation)
    ensures ManifestsAt(p, formation, horizons, n) == ManifestsAt(q, formation, horizons, n)
  {
    if n > 0 { SameAtHorizons(p, q, formation, horizons, n - 1); }
  }

  lemma {:induction false} GroupNamesDistinct(observations: seq<Observation>, formation: int)
    requires NamesDistinctEverywhere(observations)
    ensures DistinctNames(Members(observations, FormationOf(), formation))
  {
    if observations != [] {
      var front, last := observations[..|observations| - 1], observations[|observations| - 1];
      GroupNamesDistinct(front, formation);
      var group := Members(front, FormationOf(), formation);
      if last.formation == formation {
        forall i | 0 <= i < |group| ensures group[i].mTicker != last.mTicker {
          MembersHaveKey(front, FormationOf(), formation, i);
          var j :| 0 <= j < |front| && front[j] == group[i];
          assert observations[j] == front[j];
        }
      }
    }
  }

  // ----- returns play no part -----

  /** An observation stripped of everything known only later. */
  function Blinded(o: Observation): Observation { o.(paths := map[]) }

  /** The frozen part of a manifest: everything but the path statuses and what follows from them. */
  function Frozen(m: Manifest): (nat, nat, seq<string>, seq<string>) { (m.eligible, m.perLeg, m.short, m.long) }

  /** Two sets of observations that agree on names and signals freeze the same legs, whatever has become of the
      returns since; a cohort above the floor is admitted exactly when all its selected paths are resolved. */
  lemma ReturnsPlayNoPart(p: seq<Observation>, q: seq<Observation>, formation: int, horizon: int)
    requires |p| == |q| && forall i | 0 <= i < |p| :: Blinded(p[i]) == Blinded(q[i])
    ensures Frozen(ManifestOf(Sort(p, RankLe), formation, horizon))
        == Frozen(ManifestOf(Sort(q, RankLe), formation, horizon))
    ensures var group := Sort(p, RankLe);
      StatusOf(group, horizon) == Admitted <==>
        |p| >= MINIMUM_NAMES && forall o | o in ShortTail(group) + LongTail(group) ::
            StatusOn(o, horizon) == ResolvedNonterminal
  {
    RankingIsBlind(p, q);
    SameTails(Sort(p, RankLe), Sort(q, RankLe));
    RankLeIsPreorder();
    SortSorts(p, RankLe);
    AdmittedIffResolved(Sort(p, RankLe), horizon);
  }

  lemma RankingIsBlind(p: seq<Observation>, q: seq<Observation>)
    requires |p| == |q| && forall i | 0 <= i < |p| :: Blinded(p[i]) == Blinded(q[i])
    ensures Names(Sort(p, RankLe)) == Names(Sort(q, RankLe))
  {
    RankLeIsPreorder();
    SortRelabels(p, Blinded, RankLe, RankLe);
    SortRelabels(q, Blinded, RankLe, RankLe);
    assert Mapped(p, Blinded) == Mapped(q, Blinded);
    NamesOfBlinded(Sort(p, RankLe));
    NamesOfBlinded(Sort(q, RankLe));
  }

  lemma NamesOfBlinded(s: seq<Observation>)
    ensures Names(Mapped(s, Blinded)) == Names(s)
  {}

  lemma SameTails(a: seq<Observation>, b: seq<Observation>)
    requires Names(a) == Names(b)
    ensures |a| == |b| && Names(ShortTail(a)) == Names(ShortTail(b)) && Names(LongTail(a)) == Names(LongTail(b))
  {
    assert |Names(a)| == |a| && |Names(b)| == |b|;
    LegsFit(|a|);
    var k := NamesPerLeg(|a|);
    assert Names(ShortTail(a)) == Names(a)[..k] && Names(ShortTail(b)) == Names(b)[..k];
    assert Names(LongTail(a)) == Names(a)[|a| - k..] && Names(LongTail(b)) == Names(b)[|a| - k..];
  }

  lemma AdmittedIffResolved(group: seq<Observation>, horizon: int)
    ensures StatusOf(group, horizon) == Admitted <==>
      |group| >= MINIMUM_NAMES && forall o | o in ShortTail(group) + LongTail(group) ::
          StatusOn(o, horizon) == ResolvedNonterminal
  {
    var selected := ShortTail(group) + LongTail(group);
    if !AnyStatus(selected, horizon, TerminalNotSupported) && !AnyStatus(selected, horizon, NotResolved) {
      forall o | o in selected ensures StatusOn(o, horizon) == ResolvedNonterminal {
        var i :| 0 <= i < |selected| && selected[i] == o;
      }
    }
  }
}
