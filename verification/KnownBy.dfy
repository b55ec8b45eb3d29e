/** The conservative cutoff: the latest consensus known before the Eastern day of activation, or none. */
module KnownBy {
  import opened Optional
  import opened Ordering
  import opened TextOrder
  import opened Grouping

  /** A well-formed vintage row: its date, the instant it became available if that is known, its digest. */
  datatype Vintage = Vintage(asOf: int, available: Option<int>, digest: string, analysts: int)

  /** The time zone: the Eastern date of an instant, the instant an Eastern date starts, UTC midnight of a date. */
  datatype Zone = Zone(easternDay: int -> int, dayStart: int -> int, midnight: int -> int)

  datatype Reason = NoneEligible | LatestAmbiguous | TooFewAnalysts

  datatype Outcome =
    | Answer(selected: Option<Vintage>, reasons: seq<Reason>, digests: seq<string>)
    | BadAnalystCount

  const MINIMUM_ANALYSTS := 2

  /** `_vintage_order_key`. */
  function OrderKey(v: Vintage, z: Zone): (int, int) {
    (v.asOf, match v.available case Some(t) => t case None => z.midnight(v.asOf))
  }

  predicate KeyLe(a: (int, int), b: (int, int)) { a.0 < b.0 || (a.0 == b.0 && a.1 <= b.1) }

  /** Dated and, where the instant is known, available before the day of activation. */
  predicate Eligible(v: Vintage, day: int, z: Zone) {
    v.asOf < day && (v.available.None? || v.available.value < z.dayStart(day))
  }

  function EligibleOn(day: int, z: Zone): Vintage -> bool { (v: Vintage) => Eligible(v, day, z) }

  function KeyIs(k: (int, int), z: Zone): Vintage -> bool { (v: Vintage) => OrderKey(v, z) == k }

  /** The greatest key of some rows. */
  function LatestKey(rows: seq<Vintage>, z: Zone): (k: (int, int))
    requires rows != []
    ensures forall v | v in rows :: KeyLe(OrderKey(v, z), k)
  {
    var last := rows[|rows| - 1];
    if |rows| == 1 then OrderKey(last, z)
    else
      var rest := LatestKey(rows[..|rows| - 1], z);
      assert forall v | v in rows :: v in rows[..|rows| - 1] || v == last;
      if KeyLe(rest, OrderKey(last, z)) then OrderKey(last, z) else rest
  }

  lemma {:induction false} LatestKeyIsHeld(rows: seq<Vintage>, z: Zone) returns (v: Vintage)
    requires rows != []
    ensures v in rows && OrderKey(v, z) == LatestKey(rows, z)
  {
    v := rows[|rows| - 1];
    if |rows| > 1 && LatestKey(rows, z) != OrderKey(v, z) {
      v := LatestKeyIsHeld(rows[..|rows| - 1], z);
    }
  }

  function DigestOf(v: Vintage): string { v.digest }

  /** The answer given the rows that share the latest key. */
  function Judge(latest: seq<Vintage>): Outcome {
    var digests := Sort(Mapped(latest, DigestOf), TextLe);
    if |latest| != 1 then Answer(None, [LatestAmbiguous], digests)
    else if latest[0].analysts < 1 then BadAnalystCount
    else Answer(Some(latest[0]), if latest[0].analysts < MINIMUM_ANALYSTS then [TooFewAnalysts] else [], digests)
  }

  function Selected(eligible: seq<Vintage>, z: Zone): Outcome {
    if eligible == [] then Answer(None, [NoneEligible], [])
    else Judge(Filter(eligible, KeyIs(LatestKey(eligible, z), z)))
  }

  function Choice(rows: seq<Vintage>, activation: int, z: Zone): Outcome {
    Selected(Filter(rows, EligibleOn(z.easternDay(activation), z)), z)
  }

  /** `select_conservative_consensus_vintage`. */
  method SelectConservativeConsensusVintage(rows: seq<Vintage>, activation: int, z: Zone) returns (r: Outcome)
    ensures r == Choice(rows, activation, z)
  {
    var day := z.easternDay(activation);
    var eligible: seq<Vintage> := [];
    for n := 0 to |rows|
      invariant eligible == Filter(rows[..n], EligibleOn(day, z))
    {
      FilterNext(rows, n, EligibleOn(day, z));
      var v := rows[n];
      if v.asOf < day && (v.available.None? || v.available.value < z.dayStart(day)) { eligible := eligible + [v]; }
    }
    assert rows[..|rows|] == rows;
    if eligible == [] { return Answer(None, [NoneEligible], []); }
    var latest := KeepLatest(eligible, z);
    return Judge(latest);
  }

  method KeepLatest(eligible: seq<Vintage>, z: Zone) returns (latest: seq<Vintage>)
    requires eligible != []
    ensures latest == Filter(eligible, KeyIs(LatestKey(eligible, z), z))
  {
    var key := OrderKey(eligible[0], z);
    assert eligible[..1] == [eligible[0]];
    for n := 1 to |eligible|
      invariant key == LatestKey(eligible[..n], z)
    {
      assert eligible[..n + 1][..n] == eligible[..n];
      var k := OrderKey(eligible[n], z);
      if KeyLe(key, k) { key := k; }
    }
    assert eligible[..|eligible|] == eligible;
    latest := [];
    for n := 0 to |eligible|
      invariant latest == Filter(eligible[..n], KeyIs(key, z))
    {
      FilterNext(eligible, n, KeyIs(key, z));
      if OrderKey(eligible[n], z) == key { latest := latest + [eligible[n]]; }
    }
  }

  // ----- what the choice depends on -----

  lemma LatestKeyIgnoresOrder(a: seq<Vintage>, b: seq<Vintage>, z: Zone)
    requires a != [] && b != [] && multiset(a) == multiset(b)
    ensures LatestKey(a, z) == LatestKey(b, z)
  {
    var v := LatestKeyIsHeld(a, z);
    var w := LatestKeyIsHeld(b, z);
    assert v in multiset(b) && w in multiset(a);
    assert v in b && w in a;
  }

  lemma JudgeIgnoresOrder(a: seq<Vintage>, b: seq<Vintage>)
    requires multiset(a) == multiset(b)
    ensures Judge(a) == Judge(b)
  {
    assert |a| == |multiset(a)| == |multiset(b)| == |b|;
    TextLeIsTotalOrder();
    MappedKeepsMultiset(a, b, DigestOf);
    SortIgnoresOrder(Mapped(a, DigestOf), Mapped(b, DigestOf), TextLe);
    if |a| == 1 {
      assert a == [a[0]] && b == [b[0]];
      assert a[0] in multiset(b);
    }
  }

  /** The answer depends on nothing but the eligible rows, as a collection. */
  lemma OnlyEligibleRowsMatter(p: seq<Vintage>, q: seq<Vintage>, a: int, b: int, z: Zone)
    requires z.easternDay(a) == z.easternDay(b)
    requires multiset(Filter(p, EligibleOn(z.easternDay(a), z))) == multiset(Filter(q, EligibleOn(z.easternDay(a), z)))
    ensures Choice(p, a, z) == Choice(q, b, z)
  {
    var x, y := Filter(p, EligibleOn(z.easternDay(a), z)), Filter(q, EligibleOn(z.easternDay(a), z));
    assert |x| == |multiset(x)| == |multiset(y)| == |y|;
    if x != [] {
      LatestKeyIgnoresOrder(x, y, z);
      FilterIgnoresOrder(x, y, KeyIs(LatestKey(x, z), z));
      JudgeIgnoresOrder(Filter(x, KeyIs(LatestKey(x, z), z)), Filter(y, KeyIs(LatestKey(x, z), z)));
    }
  }

  /** So it does not depend on the order of the rows, on the hour of the activation day, or on rows dated or
      available on or after that day. */
  lemma CutoffHolds(p: seq<Vintage>, q: seq<Vintage>, later: seq<Vintage>, a: int, b: int, z: Zone)
    requires multiset(q) == multiset(p) + multiset(later) && z.easternDay(a) == z.easternDay(b)
    requires forall v | v in later :: !Eligible(v, z.easternDay(a), z)
    ensures Choice(q, b, z) == Choice(p, a, z)
  {
    var day := z.easternDay(a);
    var x, y := Filter(p, EligibleOn(day, z)), Filter(q, EligibleOn(day, z));
    forall v ensures multiset(x)[v] == multiset(y)[v] {
      FilterCount(p, EligibleOn(day, z), v);
      FilterCount(q, EligibleOn(day, z), v);
      if Eligible(v, day, z) { assert v !in multiset(later); }
    }
    OnlyEligibleRowsMatter(p, q, a, b, z);
  }

  /** The row is strictly later than every other of the rows, and occurs once. */
  ghost predicate StandsAlone(v: Vintage, rows: seq<Vintage>, z: Zone) {
    && v in rows && multiset(rows)[v] == 1
    && forall w | w in rows && w != v :: !KeyLe(OrderKey(v, z), OrderKey(w, z))
  }

  lemma AloneIsOnlyLatest(eligible: seq<Vintage>, v: Vintage, z: Zone)
    requires eligible != []
    ensures Filter(eligible, KeyIs(LatestKey(eligible, z), z)) == [v] <==> StandsAlone(v, eligible, z)
  {
    var key := LatestKey(eligible, z);
    var latest := Filter(eligible, KeyIs(key, z));
    FilterCount(eligible, KeyIs(key, z), v);
    FilterKeeps(eligible, KeyIs(key, z), v);
    if latest == [v] {
      assert multiset([v])[v] == 1;
      assert v in latest;
      forall w | w in eligible && w != v ensures !KeyLe(OrderKey(v, z), OrderKey(w, z)) {
        FilterKeeps(eligible, KeyIs(key, z), w);
      }
    }
    if StandsAlone(v, eligible, z) {
      var held := LatestKeyIsHeld(eligible, z);
      assert held == v;
      forall w ensures multiset(latest)[w] == multiset([v])[w] {
        FilterCount(eligible, KeyIs(key, z), w);
        assert w in multiset(eligible) <==> w in eligible;
      }
      SingleMember(latest, v);
    }
  }

  lemma SingleMember<T>(s: seq<T>, v: T)
    requires multiset(s) == multiset([v])
    ensures s == [v]
  {
    assert |s| == |multiset(s)| == 1;
    assert s[0] in multiset([v]);
  }

  /** A vintage is selected exactly when it is the one eligible row with the latest key; when the latest key is
      shared nothing is selected, however good an older row may be. */
  lemma NoFallback(rows: seq<Vintage>, activation: int, z: Zone, v: Vintage)
    ensures var eligible := Filter(rows, EligibleOn(z.easternDay(activation), z));
      var r := Choice(rows, activation, z);
      && (StandsAlone(v, eligible, z) && v.analysts >= 1 <==> r.Answer? && r.selected == Some(v))
      && (r.BadAnalystCount? ==> exists w :: StandsAlone(w, eligible, z) && w.analysts < 1)
      && (r.Answer? && r.selected == Some(v) ==> v in rows && Eligible(v, z.easternDay(activation), z))
  {
    var day := z.easternDay(activation);
    var eligible := Filter(rows, EligibleOn(day, z));
    FilterKeeps(rows, EligibleOn(day, z), v);
    if eligible != [] {
      var latest := Filter(eligible, KeyIs(LatestKey(eligible, z), z));
      AloneIsOnlyLatest(eligible, v, z);
      if |latest| == 1 {
        assert latest == [latest[0]];
        AloneIsOnlyLatest(eligible, latest[0], z);
      }
    }
  }
}
