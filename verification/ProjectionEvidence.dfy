/** When the comparer passes two ledgers, told in the fields of their sessions. */
module ProjectionEvidence {
  import opened Rounding
  import opened Sums
  import opened Books
  import opened ComponentCompare
  import opened ComponentVerdict

  /** Within five in the eighteenth place. */
  predicate Close(x: real, y: real) { -0.000000000000000005 <= x - y <= 0.000000000000000005 }

  function FeesUpTo(names: seq<NameState>, n: nat): real
    requires n <= |names|
  {
    if n == 0 then 0.0 else FeesUpTo(names, n - 1) + names[n - 1].fee
  }

  /** The checkpoint fees of a session, or those of its names together where it has none. */
  function Charged(s: Session): real {
    match s.cohort.checkpointFees case Some(fees) => fees case None => FeesUpTo(s.names, |s.names|)
  }

  predicate CohortsClose(p: Session, r: Session) {
    var x, y := p.cohort, r.cohort;
    && x.openCount == y.openCount && Close(x.cash, y.cash) && Close(x.receivable, y.receivable)
    && Close(x.marketValue, y.marketValue) && Close(x.grossLong, y.grossLong) && Close(x.grossShort, y.grossShort)
    && Close(x.nav, y.nav) && Close(Charged(p), Charged(r)) && Close(x.cumulativeFees, y.cumulativeFees)
    && Close(x.dailyPnl, y.dailyPnl) && Close(x.cumulativePnl, y.cumulativePnl)
  }

  predicate NamesClose(x: NameState, y: NameState) {
    && x.applied == y.applied && x.close == y.close && x.target == y.target && x.order == y.order
    && x.position == y.position && Close(x.cashFlow, y.cashFlow) && Close(x.accrual, y.accrual)
    && Close(x.receivable, y.receivable) && Close(x.marketValue, y.marketValue) && Close(x.fee, y.fee)
    && Close(x.pricePnl, y.pricePnl) && Close(x.netPnl, y.netPnl)
  }

  lemma {:induction false} FeesTell(names: seq<NameState>, n: nat)
    requires n <= |names|
    ensures SumTo(n, FeesOf(names)) == FeesUpTo(names, n)
  {
    if n > 0 { FeesTell(names, n - 1); }
  }

  lemma TenClose(x: seq<real>, y: seq<real>)
    requires |x| == 10 && |y| == 10
    ensures (forall f :: 0 <= f < |x| ==> Abs(x[f] - y[f]) <= Tolerance(f, 0))
      <==> && Close(x[0], y[0]) && Close(x[1], y[1]) && Close(x[2], y[2]) && Close(x[3], y[3]) && Close(x[4], y[4])
           && Close(x[5], y[5]) && Close(x[6], y[6]) && Close(x[7], y[7]) && Close(x[8], y[8]) && Close(x[9], y[9])
  {
  }

  lemma {:induction false} CohortTells(t: int, p: Session, r: Session)
    ensures RowAgrees(CohortRow(t, p), CohortRow(t, r), 0) <==> CohortsClose(p, r)
  {
    FeesTell(p.names, |p.names|);
    FeesTell(r.names, |r.names|);
    TenClose(CohortRow(t, p).numbers, CohortRow(t, r).numbers);
    assert CohortRow(t, p).labels[0].value == p.cohort.openCount;
    assert CohortRow(t, r).labels[0].value == r.cohort.openCount;
  }

  lemma {:induction false} NameTells(t: int, p: NameState, r: NameState)
    ensures RowAgrees(NameRow(t, p), NameRow(t, r), 4) <==> NamesClose(p, r)
  {
    var x, y := NameRow(t, p).numbers, NameRow(t, r).numbers;
    assert x[0] == p.close && x[1] == p.target && x[2] == p.order && x[3] == p.position && x[4] == p.cashFlow;
    assert x[5] == p.accrual && x[6] == p.receivable && x[7] == p.marketValue && x[8] == p.fee && x[9] == p.pricePnl;
    assert y[0] == r.close && y[1] == r.target && y[2] == r.order && y[3] == r.position && y[4] == r.cashFlow;
    assert y[5] == r.accrual && y[6] == r.receivable && y[7] == r.marketValue && y[8] == r.fee && y[9] == r.pricePnl;
    assert x[10] == p.netPnl && y[10] == r.netPnl;
  }

  predicate AllClose(ps: seq<Session>, rs: seq<Session>) {
    |ps| == |rs| && forall t | 0 <= t < |ps| :: CohortsClose(ps[t], rs[t])
  }

  lemma {:induction false} CohortKey(rs: seq<Session>, t: int)
    ensures HasKey(CohortRows(rs), t) <==> 0 <= t < |rs|
  {
    if 0 <= t < |rs| { assert CohortRows(rs)[t].key == t; }
  }

  lemma {:induction false} AllCloseFromLevel(ps: seq<Session>, rs: seq<Session>)
    requires LevelAgrees(CohortRows(ps), CohortRows(rs), 0)
    ensures AllClose(ps, rs)
  {
    var xs, ys := CohortRows(ps), CohortRows(rs);
    if |ps| < |rs| {
      assert HasKey(xs, ys[|ps|].key);
      CohortKey(ps, |ps|);
    }
    if |rs| < |ps| {
      assert HasKey(ys, xs[|rs|].key);
      CohortKey(rs, |rs|);
    }
    forall t | 0 <= t < |ps| ensures CohortsClose(ps[t], rs[t]) {
      assert xs[t].key == ys[t].key;
      CohortTells(t, ps[t], rs[t]);
    }
  }

  lemma {:induction false} LevelFromAllClose(ps: seq<Session>, rs: seq<Session>)
    requires AllClose(ps, rs)
    ensures LevelAgrees(CohortRows(ps), CohortRows(rs), 0)
  {
    var xs, ys := CohortRows(ps), CohortRows(rs);
    forall t | 0 <= t < |ps| ensures HasKey(ys, xs[t].key) && HasKey(xs, ys[t].key) {
      CohortKey(ps, t);
      CohortKey(rs, t);
    }
    forall i, j | 0 <= i < |xs| && 0 <= j < |ys| && xs[i].key == ys[j].key ensures RowAgrees(xs[i], ys[j], 0) {
      assert i == j;
      CohortTells(i, ps[i], rs[i]);
    }
  }

  /** The cohort level passes exactly when the sessions are as many and close in every field. */
  lemma {:induction false} CohortsTell(ps: seq<Session>, rs: seq<Session>, order: (int, int) -> bool)
    ensures Findings(CohortRows(ps), CohortRows(rs), order, 0, 1, 10) == [] <==> AllClose(ps, rs)
  {
    NoFindings(CohortRows(ps), CohortRows(rs), order, 0, 1, 10);
    if LevelAgrees(CohortRows(ps), CohortRows(rs), 0) { AllCloseFromLevel(ps, rs); }
    if AllClose(ps, rs) { LevelFromAllClose(ps, rs); }
  }

  // ----- the constituent level -----

  predicate NamesDiffer(s: Session) { forall i, j | 0 <= i < j < |s.names| :: s.names[i].mTicker != s.names[j].mTicker }

  /** Session t of one side has this name. */
  predicate Names(ps: seq<Session>, t: int, i: int) { 0 <= t < |ps| && 0 <= i < |ps[t].names| }

  predicate NamedIn(rs: seq<Session>, t: int, name: string) {
    0 <= t < |rs| && exists j | 0 <= j < |rs[t].names| :: rs[t].names[j].mTicker == name
  }

  lemma {:induction false} NameRowAt(ps: seq<Session>, n: nat, t: nat, i: nat) returns (m: nat)
    requires n <= |ps| && t < n && Names(ps, t, i)
    ensures m < |NameRows(ps, n)| && NameRows(ps, n)[m] == NameRow(t, ps[t].names[i])
  {
    if t == n - 1 {
      m := |NameRows(ps, n - 1)| + i;
    } else {
      m := NameRowAt(ps, n - 1, t, i);
    }
  }

  lemma {:induction false} NameOfRow(ps: seq<Session>, n: nat, m: nat) returns (t: nat, i: nat)
    requires n <= |ps| && m < |NameRows(ps, n)|
    ensures t < n && Names(ps, t, i) && NameRows(ps, n)[m] == NameRow(t, ps[t].names[i])
  {
    var before := |NameRows(ps, n - 1)|;
    if m >= before {
      t, i := n - 1, m - before;
    } else {
      t, i := NameOfRow(ps, n - 1, m);
    }
  }

  lemma {:induction false} NameKeysDiffer(ps: seq<Session>, n: nat)
    requires n <= |ps| && forall t | 0 <= t < |ps| :: NamesDiffer(ps[t])
    ensures DistinctKeys(NameRows(ps, n))
  {
    if n > 0 {
      NameKeysDiffer(ps, n - 1);
      var before, last := NameRows(ps, n - 1), NameRowsOf(n - 1, ps[n - 1].names);
      assert NamesDiffer(ps[n - 1]);
      forall a, b | 0 <= a < |before| && 0 <= b < |last| ensures before[a].key != last[b].key {
        var t, i := NameOfRow(ps, n - 1, a);
      }
    }
  }

  /** Both sides have the same names on the same sessions, and their rows are close in every field. */
  ghost predicate NameRowsClose(ps: seq<Session>, rs: seq<Session>) {
    && (forall t, i | Names(ps, t, i) :: NamedIn(rs, t, ps[t].names[i].mTicker))
    && (forall t, j | Names(rs, t, j) :: NamedIn(ps, t, rs[t].names[j].mTicker))
    && forall t, i, j | Names(ps, t, i) && Names(rs, t, j) && ps[t].names[i].mTicker == rs[t].names[j].mTicker ::
         NamesClose(ps[t].names[i], rs[t].names[j])
  }

  lemma {:induction false} NamedTells(rs: seq<Session>, t: int, name: string)
    ensures HasKey(NameRows(rs, |rs|), (t, name)) <==> NamedIn(rs, t, name)
  {
    var rows := NameRows(rs, |rs|);
    if HasKey(rows, (t, name)) {
      var m :| 0 <= m < |rows| && rows[m].key == (t, name);
      var u, j := NameOfRow(rs, |rs|, m);
    }
    if NamedIn(rs, t, name) {
      var j :| 0 <= j < |rs[t].names| && rs[t].names[j].mTicker == name;
      var m := NameRowAt(rs, |rs|, t, j);
      assert rows[m].key == (t, name);
    }
  }

  lemma {:induction false} CloseFromLevel(ps: seq<Session>, rs: seq<Session>)
    requires LevelAgrees(NameRows(ps, |ps|), NameRows(rs, |rs|), 4)
    ensures NameRowsClose(ps, rs)
  {
    var xs, ys := NameRows(ps, |ps|), NameRows(rs, |rs|);
    forall t, i | Names(ps, t, i) ensures NamedIn(rs, t, ps[t].names[i].mTicker) {
      var m := NameRowAt(ps, |ps|, t, i);
      assert HasKey(ys, xs[m].key);
      NamedTells(rs, t, ps[t].names[i].mTicker);
    }
    forall t, j | Names(rs, t, j) ensures NamedIn(ps, t, rs[t].names[j].mTicker) {
      var m := NameRowAt(rs, |rs|, t, j);
      assert HasKey(xs, ys[m].key);
      NamedTells(ps, t, rs[t].names[j].mTicker);
    }
    forall t, i, j | Names(ps, t, i) && Names(rs, t, j) && ps[t].names[i].mTicker == rs[t].names[j].mTicker
      ensures NamesClose(ps[t].names[i], rs[t].names[j])
    {
      var a := NameRowAt(ps, |ps|, t, i);
      var b := NameRowAt(rs, |rs|, t, j);
      assert xs[a].key == ys[b].key;
      NameTells(t, ps[t].names[i], rs[t].names[j]);
    }
  }

  lemma {:induction false} LevelFromClose(ps: seq<Session>, rs: seq<Session>)
    requires NameRowsClose(ps, rs)
    ensures LevelAgrees(NameRows(ps, |ps|), NameRows(rs, |rs|), 4)
  {
    var xs, ys := NameRows(ps, |ps|), NameRows(rs, |rs|);
    forall a | 0 <= a < |xs| ensures HasKey(ys, xs[a].key) {
      var t, i := NameOfRow(ps, |ps|, a);
      NamedTells(rs, t, ps[t].names[i].mTicker);
    }
    forall b | 0 <= b < |ys| ensures HasKey(xs, ys[b].key) {
      var t, j := NameOfRow(rs, |rs|, b);
      NamedTells(ps, t, rs[t].names[j].mTicker);
    }
    forall a, b | 0 <= a < |xs| && 0 <= b < |ys| && xs[a].key == ys[b].key ensures RowAgrees(xs[a], ys[b], 4) {
      var t, i := NameOfRow(ps, |ps|, a);
      var u, j := NameOfRow(rs, |rs|, b);
      assert t == u;
      NameTells(t, ps[t].names[i], rs[t].names[j]);
    }
  }

  /** The constituent level passes exactly when the names are the same and close in every field. */
  lemma {:induction false} NamesTell(ps: seq<Session>, rs: seq<Session>, order: ((int, string), (int, string)) -> bool)
    requires forall t | 0 <= t < |ps| :: NamesDiffer(ps[t])
    requires forall t | 0 <= t < |rs| :: NamesDiffer(rs[t])
    ensures Findings(NameRows(ps, |ps|), NameRows(rs, |rs|), order, 4, 1, 11) == [] <==> NameRowsClose(ps, rs)
  {
    NameKeysDiffer(ps, |ps|);
    NameKeysDiffer(rs, |rs|);
    NoFindings(NameRows(ps, |ps|), NameRows(rs, |rs|), order, 4, 1, 11);
    if LevelAgrees(NameRows(ps, |ps|), NameRows(rs, |rs|), 4) { CloseFromLevel(ps, rs); }
    if NameRowsClose(ps, rs) { LevelFromClose(ps, rs); }
  }
}
