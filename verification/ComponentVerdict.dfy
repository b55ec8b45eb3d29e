/** The comparer applied to the two daily ledgers: which cohorts the component reconciliation passes. */
module ComponentVerdict {
  import opened Rounding
  import opened Sums
  import opened Books
  import opened Lockstep
  import opened Divergence
  import opened ComponentTolerance
  import opened ComponentCompare
  import FeeDrift
  import PrimaryDaily
  import ReferenceDaily

  function FeesOf(names: seq<NameState>): int -> real { i => if 0 <= i < |names| then names[i].fee else 0.0 }

  /** The checkpoint fees of a session: as written, or summed from its names when the ledger writes none. */
  function SessionFees(s: Session): real {
    if s.cohort.checkpointFees.Some? then s.cohort.checkpointFees.value else SumTo(|s.names|, FeesOf(s.names))
  }

  /** A cohort row: its session, the open positions, and ten money fields. */
  function CohortRow(t: int, s: Session): Row<int> {
    var c := s.cohort;
    Row(t, [Count(c.openCount)], [c.cash, c.receivable, c.marketValue, c.grossLong, c.grossShort, c.nav, SessionFees(s),
                                  c.cumulativeFees, c.dailyPnl, c.cumulativePnl])
  }

  function CohortRows(sessions: seq<Session>): (rows: seq<Row<int>>)
    ensures Shaped(rows, 1, 10) && DistinctKeys(rows)
  {
    seq(|sessions|, t requires 0 <= t < |sessions| => CohortRow(t, sessions[t]))
  }

  /** A constituent row: session and name, the applied distributions, four exact numbers and seven money fields. */
  function NameRow(t: int, n: NameState): Row<(int, string)> {
    Row((t, n.mTicker), [Keys(n.applied)], [n.close, n.target, n.order, n.position, n.cashFlow, n.accrual, n.receivable,
                                            n.marketValue, n.fee, n.pricePnl, n.netPnl])
  }

  function NameRowsOf(t: int, names: seq<NameState>): (rows: seq<Row<(int, string)>>)
    ensures Shaped(rows, 1, 11)
  {
    seq(|names|, i requires 0 <= i < |names| => NameRow(t, names[i]))
  }

  function NameRows(sessions: seq<Session>, n: nat): (rows: seq<Row<(int, string)>>)
    requires n <= |sessions|
    ensures Shaped(rows, 1, 11)
  {
    if n == 0 then [] else NameRows(sessions, n - 1) + NameRowsOf(n - 1, sessions[n - 1].names)
  }

  /** The projection of one ledger's cohort states, adding up the names' fees where none are written. */
  method ComponentCohorts(sessions: seq<Session>) returns (rows: seq<Row<int>>)
    ensures rows == CohortRows(sessions)
  {
    rows := [];
    for t := 0 to |sessions|
      invariant |rows| == t && forall s :: 0 <= s < t ==> rows[s] == CohortRow(s, sessions[s])
    {
      var c, fees := sessions[t].cohort, 0.0;
      if c.checkpointFees.Some? {
        fees := c.checkpointFees.value;
      } else {
        for i := 0 to |sessions[t].names|
          invariant fees == SumTo(i, FeesOf(sessions[t].names))
        {
          fees := fees + sessions[t].names[i].fee;
        }
      }
      rows := rows + [Row(t, [Count(c.openCount)],
                          [c.cash, c.receivable, c.marketValue, c.grossLong, c.grossShort, c.nav, fees,
                           c.cumulativeFees, c.dailyPnl, c.cumulativePnl])];
    }
  }

  // Row lists of the same keys in the same order.

  predicate Aligned<K(==)>(ps: seq<Row<K>>, rs: seq<Row<K>>) {
    |ps| == |rs| && forall i :: 0 <= i < |ps| ==> ps[i].key == rs[i].key
  }

  lemma {:induction false} AlignedAgrees<K>(ps: seq<Row<K>>, rs: seq<Row<K>>, exact: nat)
    requires Aligned(ps, rs) && DistinctKeys(ps)
    ensures DistinctKeys(rs)
    ensures LevelAgrees(ps, rs, exact) <==> forall i :: 0 <= i < |ps| ==> RowAgrees(ps[i], rs[i], exact)
  {
    forall i, j | 0 <= i < j < |rs| ensures rs[i].key != rs[j].key {
      assert ps[i].key == rs[i].key && ps[j].key == rs[j].key;
    }
    forall i | 0 <= i < |ps| ensures HasKey(rs, ps[i].key) && HasKey(ps, rs[i].key) {
      assert ps[i].key == rs[i].key;
    }
    if forall i :: 0 <= i < |ps| ==> RowAgrees(ps[i], rs[i], exact) {
      forall i, j | 0 <= i < |ps| && 0 <= j < |rs| && ps[i].key == rs[j].key ensures RowAgrees(ps[i], rs[j], exact) {
        assert ps[j].key == rs[j].key;
        assert i == j;
      }
    }
  }

  /** On aligned lists the comparer reports nothing exactly when the rows agree one by one. */
  lemma {:induction false} AlignedFindings<K>(ps: seq<Row<K>>, rs: seq<Row<K>>, order: (K, K) -> bool, exact: nat,
                                              labels: nat, numbers: nat)
    requires Aligned(ps, rs) && DistinctKeys(ps) && Shaped(ps, labels, numbers) && Shaped(rs, labels, numbers)
    ensures Findings(ps, rs, order, exact, labels, numbers) == [] <==>
            forall i :: 0 <= i < |ps| ==> RowAgrees(ps[i], rs[i], exact)
  {
    AlignedAgrees(ps, rs, exact);
    NoFindings(ps, rs, order, exact, labels, numbers);
  }

  // The fees of one session, written and summed.

  lemma {:induction false} CheckpointFeesAgree(e: Book, t: nat)
    requires t < |e.path|
    ensures Money(SumTo(|e.items|, Written(e).CheckpointFees(t)))
            == SessionFees(Fix(ReferenceDaily.ReferenceSession(e, t)))
  {
    var n, f := |e.items|, Written(e).CheckpointFees(t);
    var names := Fix(ReferenceDaily.ReferenceSession(e, t)).names;
    var g := FeesOf(names);
    forall i | 0 <= i < n ensures f(i) == g(i) && OnGrid(f(i)) {
      MoneyFixed(0.0);
      MoneyOnGrid(e.FeeOn(i, t));
      assert names[i] == FixName(ReferenceDaily.ReferenceName(e, i, t));
      assert f(i) == Money(e.FeeOn(i, t));
    }
    SumCongruent(n, f, g);
    SumOnGrid(n, f);
    MoneyFixed(SumTo(n, f));
  }

  function PrimaryRows(e: Book): seq<Row<int>> { CohortRows(PrimaryDaily.FixedSessions(Written(e), |e.path|)) }

  function ReferenceRows(e: Book): seq<Row<int>> { CohortRows(ReferenceDaily.FixedSessions(e, |e.path|)) }

  /** What the comparer reports on the cohort level. */
  function CohortFindings(e: Book, order: (int, int) -> bool): seq<Discrepancy<int>> {
    Findings(PrimaryRows(e), ReferenceRows(e), order, 0, 1, 10)
  }

  /** At one session the projected cohort rows agree exactly when the written cohort states are within tolerance. */
  lemma {:induction false} CohortRowVerdict(e: Book, t: nat)
    requires Regular(e) && t < |e.path|
    ensures RowAgrees(PrimaryRows(e)[t], ReferenceRows(e)[t], 0) <==> SessionWithin(e, t)
  {
    CheckpointFeesAgree(e, t);
    SameOpenCount(e, t);
    RowFields(t, Fix(PrimaryDaily.PrimarySession(Written(e), t)), Fix(ReferenceDaily.ReferenceSession(e, t)));
  }

  lemma {:induction false} SameOpenCount(e: Book, t: nat)
    requires Regular(e) && t < |e.path|
    ensures PrimaryDaily.PrimaryCohort(Written(e), t).openCount == ReferenceDaily.ReferenceCohort(e, t).openCount
  {
    OpenPositions(e, t, |e.items|);
  }

  lemma RowFields(t: int, p: Session, r: Session)
    requires p.cohort.openCount == r.cohort.openCount && SessionFees(p) == SessionFees(r)
    ensures RowAgrees(CohortRow(t, p), CohortRow(t, r), 0) <==> CohortWithin(p.cohort, r.cohort)
  {
    var x, y := CohortRow(t, p).numbers, CohortRow(t, r).numbers;
    var a, b := p.cohort, r.cohort;
    assert x[0] == a.cash && x[1] == a.receivable && x[2] == a.marketValue && x[3] == a.grossLong
        && x[4] == a.grossShort;
    assert x[5] == a.nav && x[7] == a.cumulativeFees && x[8] == a.dailyPnl && x[9] == a.cumulativePnl && x[6] == y[6];
    assert y[0] == b.cash && y[1] == b.receivable && y[2] == b.marketValue && y[3] == b.grossLong
        && y[4] == b.grossShort;
    assert y[5] == b.nav && y[7] == b.cumulativeFees && y[8] == b.dailyPnl && y[9] == b.cumulativePnl;
  }

  lemma {:induction false} CohortFindingsByRow(e: Book, order: (int, int) -> bool)
    ensures CohortFindings(e, order) == [] <==>
            forall t :: 0 <= t < |e.path| ==> RowAgrees(PrimaryRows(e)[t], ReferenceRows(e)[t], 0)
  {
    AlignedFindings(PrimaryRows(e), ReferenceRows(e), order, 0, 1, 10);
  }

  /** The comparer's verdict on the cohort level. */
  lemma {:induction false} CohortLevelVerdict(e: Book, order: (int, int) -> bool)
    requires Regular(e)
    ensures CohortFindings(e, order) == [] <==> forall t :: 0 <= t < |e.path| ==> SessionWithin(e, t)
  {
    CohortFindingsByRow(e, order);
    forall t | 0 <= t < |e.path| ensures RowAgrees(PrimaryRows(e)[t], ReferenceRows(e)[t], 0) <==> SessionWithin(e, t) {
      CohortRowVerdict(e, t);
    }
  }

  /** Few serialized values: with a + f at most nine at every session nothing is reported on the cohort level. */
  lemma {:induction false} FewValuesPass(e: Book, order: (int, int) -> bool)
    requires Regular(e)
    requires forall t :: 0 <= t < |e.path| ==> RoundedFees(e, t) as real + Accruals(e, t) < 10.0
    ensures CohortFindings(e, order) == []
  {
    forall t | 0 <= t < |e.path| ensures SessionWithin(e, t) {
      CohortRowWithin(e, t);
    }
    CohortLevelVerdict(e, order);
  }

  /** A ledger cohort passes while its fees and accruals stay under ten half-quanta at every session. */
  lemma {:induction false} FewHalvesVerdict(e: Book, k: int, order: (int, int) -> bool)
    requires FeeDrift.LedgerFees(e, k) && forall t :: 0 <= t < |e.path| ==> FeeDrift.HalfQuanta(e, k, t) < 10.0
    ensures CohortFindings(e, order) == []
  {
    forall t | 0 <= t < |e.path| ensures SessionWithin(e, t) {
      FeeDrift.FewHalvesPass(e, k, t);
    }
    CohortLevelVerdict(e, order);
  }

  /** Whatever a cohort distributes, the comparer reports nothing on the cohort level only if 3*10^15 leaves remainder
      0, 1 or k-1 modulo the names per leg; if it distributes nothing, exactly then. */
  lemma {:induction false} FeeRuleVerdict(e: Book, k: int, order: (int, int) -> bool)
    requires FeeDrift.LedgerFees(e, k)
    ensures CohortFindings(e, order) == [] ==> FeeDrift.FeeRule(k)
    ensures FeeDrift.AccrualFree(e) ==> (CohortFindings(e, order) == [] <==> FeeDrift.FeeRule(k))
  {
    CohortLevelVerdict(e, order);
    if CohortFindings(e, order) == [] {
      FeeDrift.FeeRuleNecessary(e, k);
    }
    if FeeDrift.AccrualFree(e) {
      FeeDrift.FeeRuleDecides(e, k);
    }
  }
}
