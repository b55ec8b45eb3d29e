/** What the conservative cutoff answers, told in the rows: which are known, which is the latest, and what is said of
    it. */
module KnownByEvidence {
  import opened Optional
  import opened Ordering
  import opened TextOrder
  import opened Grouping
  import opened KnownBy

  /** Dated before the day and, if it says when it became available, available before the day starts. */
  predicate Known(v: Vintage, day: int, z: Zone) {
    v.asOf < day && match v.available case Some(t) => t < z.dayStart(day) case None => true
  }

  /** By date, and within a date by the instant of availability, midnight standing in for an unknown one. */
  predicate Later(v: Vintage, w: Vintage, z: Zone) {
    v.asOf > w.asOf || (v.asOf == w.asOf && Instant(v, z) > Instant(w, z))
  }

  function Instant(v: Vintage, z: Zone): int { if v.available.Some? then v.available.value else z.midnight(v.asOf) }

  /** A known row with no later one. */
  predicate IsLatest(rows: seq<Vintage>, day: int, z: Zone, v: Vintage) {
    Known(v, day, z) && forall i | 0 <= i < |rows| && Known(rows[i], day, z) :: !Later(rows[i], v, z)
  }

  function LatestOf(rows: seq<Vintage>, day: int, z: Zone): Vintage -> bool {
    (v: Vintage) => IsLatest(rows, day, z, v)
  }

  function TheLatest(rows: seq<Vintage>, day: int, z: Zone): seq<Vintage> { Filter(rows, LatestOf(rows, day, z)) }

  /** No row is known; or several are the latest, and nothing is selected; or one is, and is judged by its analysts. */
  ghost predicate Told(rows: seq<Vintage>, day: int, z: Zone, r: Outcome) {
    var latest := TheLatest(rows, day, z);
    if latest == [] then
      r == Answer(None, [NoneEligible], []) && forall i | 0 <= i < |rows| :: !Known(rows[i], day, z)
    else Judged(latest, r)
  }

  ghost predicate Judged(latest: seq<Vintage>, r: Outcome)
    requires latest != []
  {
    if |latest| > 1 then
      && r.Answer? && r.selected == None && r.reasons == [LatestAmbiguous]
      && multiset(r.digests) == multiset(seq(|latest|, i requires 0 <= i < |latest| => latest[i].digest))
      && forall i, j | 0 <= i < j < |r.digests| :: TextLe(r.digests[i], r.digests[j])
    else if latest[0].analysts < 1 then r == BadAnalystCount
    else
      r == Answer(Some(latest[0]), if latest[0].analysts == 1 then [TooFewAnalysts] else [], [latest[0].digest])
  }

  lemma {:induction false} SelectedAreLatest(rows: seq<Vintage>, day: int, z: Zone)
    ensures var eligible := Filter(rows, EligibleOn(day, z));
      && (eligible == [] ==> forall i | 0 <= i < |rows| :: !Known(rows[i], day, z))
      && TheLatest(rows, day, z) 
        == (if eligible == [] then [] else Filter(eligible, KeyIs(LatestKey(eligible, z), z)))
      && (eligible != [] ==> TheLatest(rows, day, z) != [])
  {
    var eligible := Filter(rows, EligibleOn(day, z));
    forall v ensures v in eligible <==> v in rows && Known(v, day, z) { FilterKeeps(rows, EligibleOn(day, z), v); }
    if eligible == [] {
      forall v | v in rows ensures !LatestOf(rows, day, z)(v) { assert v !in eligible; }
      FilterCongruent(rows, LatestOf(rows, day, z), (v: Vintage) => false);
      NothingKept(rows, (v: Vintage) => false);
    } else {
      var key := LatestKey(eligible, z);
      var both := (v: Vintage) => Eligible(v, day, z) && OrderKey(v, z) == key;
      var held := LatestKeyIsHeld(eligible, z);
      FilterTwice(rows, EligibleOn(day, z), KeyIs(key, z), both);
      forall v | v in rows ensures both(v) <==> LatestOf(rows, day, z)(v) { LatestTells(rows, day, z, v, held); }
      FilterCongruent(rows, both, LatestOf(rows, day, z));
      FilterKeeps(eligible, KeyIs(key, z), held);
    }
  }

  lemma {:induction false} NothingKept(rows: seq<Vintage>, keep: Vintage -> bool)
    requires forall v :: !keep(v)
    ensures Filter(rows, keep) == []
  {
    if rows != [] { NothingKept(rows[..|rows| - 1], keep); }
  }

  lemma {:induction false} LatestTells(rows: seq<Vintage>, day: int, z: Zone, v: Vintage, held: Vintage)
    requires var eligible := Filter(rows, EligibleOn(day, z));
      eligible != [] && held in eligible && OrderKey(held, z) == LatestKey(eligible, z)
    requires v in rows
    ensures Eligible(v, day, z) && OrderKey(v, z) == LatestKey(Filter(rows, EligibleOn(day, z)), z)
      <==> IsLatest(rows, day, z, v)
  {
    var eligible := Filter(rows, EligibleOn(day, z));
    forall w ensures w in eligible <==> w in rows && Known(w, day, z) { FilterKeeps(rows, EligibleOn(day, z), w); }
    if IsLatest(rows, day, z, v) {
      var i :| 0 <= i < |rows| && rows[i] == held;
      assert Known(rows[i], day, z) && !Later(rows[i], v, z) && v in eligible;
    }
    if Eligible(v, day, z) && OrderKey(v, z) == LatestKey(eligible, z) {
      forall i | 0 <= i < |rows| && Known(rows[i], day, z) ensures !Later(rows[i], v, z) {
        assert rows[i] in eligible;
      }
    }
  }

  lemma {:induction false} JudgeTells(latest: seq<Vintage>)
    requires latest != []
    ensures Judged(latest, Judge(latest))
  {
    var digests := Mapped(latest, DigestOf);
    TextLeIsTotalOrder();
    SortSorts(digests, TextLe);
    assert digests == seq(|latest|, i requires 0 <= i < |latest| => latest[i].digest);
    if |latest| == 1 { assert digests == [latest[0].digest] && Sort([latest[0].digest], TextLe) == [latest[0].digest]; }
  }

  /** The answer says this of the rows and the Eastern day of activation. */
  lemma {:induction false} ChoiceTells(rows: seq<Vintage>, activation: int, z: Zone)
    ensures Told(rows, z.easternDay(activation), z, Choice(rows, activation, z))
  {
    var day := z.easternDay(activation);
    SelectedAreLatest(rows, day, z);
    if TheLatest(rows, day, z) != [] { JudgeTells(TheLatest(rows, day, z)); }
  }
}
