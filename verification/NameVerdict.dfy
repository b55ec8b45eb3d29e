/** The comparer on the constituent level: which names' rows it lets pass. */
module NameVerdict {
  import opened Books
  import opened Lockstep
  import opened Divergence
  import opened ComponentTolerance
  import opened ComponentCompare
  import opened ComponentVerdict
  import FeeDrift
  import PrimaryDaily
  import ReferenceDaily

  type NameKey = (int, string)

  function PrimaryNames(e: Book, n: nat): seq<Row<NameKey>>
    requires n <= |e.path|
  {
    NameRows(PrimaryDaily.FixedSessions(Written(e), |e.path|), n)
  }

  function ReferenceNames(e: Book, n: nat): seq<Row<NameKey>>
    requires n <= |e.path|
  {
    NameRows(ReferenceDaily.FixedSessions(e, |e.path|), n)
  }

  function PrimaryNamesAt(e: Book, t: nat): (r: seq<Row<NameKey>>)
    requires t < |e.path|
    ensures |r| == |e.items|
    ensures forall i :: 0 <= i < |r| ==> r[i] == NameRow(t, FixName(PrimaryDaily.PrimaryName(Written(e), i, t)))
  {
    NameRowsOf(t, Fix(PrimaryDaily.PrimarySession(Written(e), t)).names)
  }

  function ReferenceNamesAt(e: Book, t: nat): (r: seq<Row<NameKey>>)
    requires t < |e.path|
    ensures |r| == |e.items|
    ensures forall i :: 0 <= i < |r| ==> r[i] == NameRow(t, FixName(ReferenceDaily.ReferenceName(e, i, t)))
  {
    NameRowsOf(t, Fix(ReferenceDaily.ReferenceSession(e, t)).names)
  }

  lemma {:induction false} NamesStep(e: Book, t: nat)
    requires t < |e.path|
    ensures PrimaryNames(e, t + 1) == PrimaryNames(e, t) + PrimaryNamesAt(e, t)
    ensures ReferenceNames(e, t + 1) == ReferenceNames(e, t) + ReferenceNamesAt(e, t)
  {
  }

  /** What the comparer reports on the constituent level. */
  function NameFindings(e: Book, order: (NameKey, NameKey) -> bool): seq<Discrepancy<NameKey>> {
    Findings(PrimaryNames(e, |e.path|), ReferenceNames(e, |e.path|), order, 4, 1, 11)
  }

  // ----- the two lists line up -----

  /** Same keys in the same order, no key twice, rows of the level's shape, sessions below n. */
  predicate LinesUp(ps: seq<Row<NameKey>>, rs: seq<Row<NameKey>>, n: int) {
    && Aligned(ps, rs) && DistinctKeys(ps) && Shaped(ps, 1, 11) && Shaped(rs, 1, 11)
    && forall i :: 0 <= i < |ps| ==> ps[i].key.0 < n
  }

  predicate SessionLinesUp(xs: seq<Row<NameKey>>, ys: seq<Row<NameKey>>, t: int) {
    && Aligned(xs, ys) && DistinctKeys(xs) && Shaped(xs, 1, 11) && Shaped(ys, 1, 11)
    && forall i :: 0 <= i < |xs| ==> xs[i].key.0 == t
  }

  lemma {:induction false} SessionNamesLineUp(e: Book, t: nat)
    requires e.DistinctNames() && t < |e.path|
    ensures SessionLinesUp(PrimaryNamesAt(e, t), ReferenceNamesAt(e, t), t)
  {
    var xs, ys := PrimaryNamesAt(e, t), ReferenceNamesAt(e, t);
    forall i | 0 <= i < |e.items| ensures RowOf(xs[i], t, e.items[i].mTicker) && RowOf(ys[i], t, e.items[i].mTicker) {
      assert PrimaryDaily.PrimaryName(Written(e), i, t).mTicker == e.items[i].mTicker;
      assert ReferenceDaily.ReferenceName(e, i, t).mTicker == e.items[i].mTicker;
    }
    RowsLineUp(e, xs, ys, t);
  }

  /** A row of one name on one session, of the level's shape. */
  predicate RowOf(x: Row<NameKey>, t: int, name: string) {
    x.key == (t, name) && |x.labels| == 1 && |x.numbers| == 11
  }

  lemma {:induction false} RowsLineUp(e: Book, xs: seq<Row<NameKey>>, ys: seq<Row<NameKey>>, t: int)
    requires e.DistinctNames() && |xs| == |ys| == |e.items|
    requires forall i :: 0 <= i < |xs| ==> RowOf(xs[i], t, e.items[i].mTicker) && RowOf(ys[i], t, e.items[i].mTicker)
    ensures SessionLinesUp(xs, ys, t)
  {
    forall i, j | 0 <= i < j < |xs| ensures xs[i].key != xs[j].key {
      assert RowOf(xs[i], t, e.items[i].mTicker) && RowOf(xs[j], t, e.items[j].mTicker);
    }
  }

  lemma AppendLinesUp(
      ps: seq<Row<NameKey>>, rs: seq<Row<NameKey>>, xs: seq<Row<NameKey>>, ys: seq<Row<NameKey>>, t: int)
    requires LinesUp(ps, rs, t) && SessionLinesUp(xs, ys, t)
    ensures LinesUp(ps + xs, rs + ys, t + 1)
  {
  }

  lemma {:induction false} NamesLineUp(e: Book, n: nat)
    requires e.DistinctNames() && n <= |e.path|
    ensures LinesUp(PrimaryNames(e, n), ReferenceNames(e, n), n)
  {
    if n > 0 {
      var t := n - 1;
      NamesLineUp(e, t);
      SessionNamesLineUp(e, t);
      NamesStep(e, t);
      var ps, rs, xs, ys := PrimaryNames(e, t), ReferenceNames(e, t), PrimaryNamesAt(e, t), ReferenceNamesAt(e, t);
      AppendLinesUp(ps, rs, xs, ys, t);
    } else {
      assert PrimaryNames(e, 0) == [] && ReferenceNames(e, 0) == [];
    }
  }

  // ----- the verdict -----

  lemma {:induction false} NameFields(t: int, p: NameState, r: NameState)
    requires p.mTicker == r.mTicker
    ensures RowAgrees(NameRow(t, p), NameRow(t, r), 4) <==> NameWithin(p, r)
  {
    var x, y := NameRow(t, p).numbers, NameRow(t, r).numbers;
    assert x[0] == p.close && x[1] == p.target && x[2] == p.order && x[3] == p.position && x[4] == p.cashFlow;
    assert x[5] == p.accrual && x[6] == p.receivable && x[7] == p.marketValue && x[8] == p.fee && x[9] == p.pricePnl;
    assert y[0] == r.close && y[1] == r.target && y[2] == r.order && y[3] == r.position && y[4] == r.cashFlow;
    assert y[5] == r.accrual && y[6] == r.receivable && y[7] == r.marketValue && y[8] == r.fee && y[9] == r.pricePnl;
    assert x[10] == p.netPnl && y[10] == r.netPnl;
  }

  predicate PairsAgree(ps: seq<Row<NameKey>>, rs: seq<Row<NameKey>>) {
    |ps| == |rs| && forall i :: 0 <= i < |ps| ==> RowAgrees(ps[i], rs[i], 4)
  }

  /** Every name's rows of session t are within the tolerance. */
  predicate SessionNamesWithin(e: Book, t: nat)
    requires t < |e.path|
  {
    forall i :: 0 <= i < |e.items| ==> NameWithinAt(e, i, t)
  }

  lemma {:induction false} SessionPairsAgree(e: Book, t: nat)
    requires t < |e.path|
    ensures PairsAgree(PrimaryNamesAt(e, t), ReferenceNamesAt(e, t)) <==> SessionNamesWithin(e, t)
  {
    var xs, ys := PrimaryNamesAt(e, t), ReferenceNamesAt(e, t);
    forall i | 0 <= i < |e.items| ensures RowAgrees(xs[i], ys[i], 4) <==> NameWithinAt(e, i, t) {
      NameFields(t, FixName(PrimaryDaily.PrimaryName(Written(e), i, t)),
                 FixName(ReferenceDaily.ReferenceName(e, i, t)));
    }
  }

  lemma AppendPairs(ps: seq<Row<NameKey>>, rs: seq<Row<NameKey>>, xs: seq<Row<NameKey>>, ys: seq<Row<NameKey>>)
    requires |ps| == |rs| && |xs| == |ys|
    ensures PairsAgree(ps + xs, rs + ys) <==> PairsAgree(ps, rs) && PairsAgree(xs, ys)
  {
    if PairsAgree(ps + xs, rs + ys) {
      forall i | 0 <= i < |ps| ensures RowAgrees(ps[i], rs[i], 4) {
        assert (ps + xs)[i] == ps[i] && (rs + ys)[i] == rs[i];
      }
      forall i | 0 <= i < |xs| ensures RowAgrees(xs[i], ys[i], 4) {
        assert (ps + xs)[|ps| + i] == xs[i] && (rs + ys)[|ps| + i] == ys[i];
      }
    }
  }

  /** Two ledgers' lists of name rows agree pair by pair exactly when each session's do, whatever is in them. */
  lemma {:induction false} SessionBySession(ps: seq<Session>, rs: seq<Session>, n: nat)
    requires n <= |ps| && n <= |rs| && forall t :: 0 <= t < n ==> |ps[t].names| == |rs[t].names|
    ensures |NameRows(ps, n)| == |NameRows(rs, n)|
    ensures PairsAgree(NameRows(ps, n), NameRows(rs, n)) <==> forall t :: 0 <= t < n ==> SessionAgrees(ps, rs, t)
  {
    if n > 0 {
      SessionBySession(ps, rs, n - 1);
      AppendPairs(NameRows(ps, n - 1), NameRows(rs, n - 1),
                  NameRowsOf(n - 1, ps[n - 1].names), NameRowsOf(n - 1, rs[n - 1].names));
      assert SessionAgrees(ps, rs, n - 1)
        <==> PairsAgree(NameRowsOf(n - 1, ps[n - 1].names), NameRowsOf(n - 1, rs[n - 1].names));
    }
  }

  predicate SessionAgrees(ps: seq<Session>, rs: seq<Session>, t: nat)
    requires t < |ps| && t < |rs|
  {
    PairsAgree(NameRowsOf(t, ps[t].names), NameRowsOf(t, rs[t].names))
  }

  lemma {:induction false} AllPairsAgree(e: Book)
    ensures PairsAgree(PrimaryNames(e, |e.path|), ReferenceNames(e, |e.path|)) <==> NamesWithin(e)
  {
    var ps, rs := PrimaryDaily.FixedSessions(Written(e), |e.path|), ReferenceDaily.FixedSessions(e, |e.path|);
    SessionBySession(ps, rs, |e.path|);
    forall t | 0 <= t < |e.path| ensures SessionAgrees(ps, rs, t) <==> SessionNamesWithin(e, t) {
      SessionAgreesAt(e, ps, rs, t);
    }
  }

  lemma {:induction false} SessionAgreesAt(e: Book, ps: seq<Session>, rs: seq<Session>, t: nat)
    requires t < |e.path|
    requires ps == PrimaryDaily.FixedSessions(Written(e), |e.path|) && rs == ReferenceDaily.FixedSessions(e, |e.path|)
    ensures SessionAgrees(ps, rs, t) <==> SessionNamesWithin(e, t)
  {
    SessionPairsAgree(e, t);
  }

  /** Every name is within the tolerance at every session. */
  predicate NamesWithin(e: Book) { forall t :: 0 <= t < |e.path| ==> SessionNamesWithin(e, t) }

  lemma {:induction false} FindingsByPairs(e: Book, order: (NameKey, NameKey) -> bool)
    requires e.DistinctNames()
    ensures NameFindings(e, order) == [] <==> PairsAgree(PrimaryNames(e, |e.path|), ReferenceNames(e, |e.path|))
    ensures DistinctKeys(PrimaryNames(e, |e.path|)) && DistinctKeys(ReferenceNames(e, |e.path|))
  {
    var ps, rs := PrimaryNames(e, |e.path|), ReferenceNames(e, |e.path|);
    NamesLineUp(e, |e.path|);
    AlignedAgrees(ps, rs, 4);
    AlignedFindings(ps, rs, order, 4, 1, 11);
  }

  /** The comparer's verdict on the constituent level: nothing exactly when every name is within the tolerance at every
      session. */
  lemma {:induction false} NameLevelVerdict(e: Book, order: (NameKey, NameKey) -> bool)
    requires e.DistinctNames()
    ensures NameFindings(e, order) == [] <==> NamesWithin(e)
  {
    FindingsByPairs(e, order);
    AllPairsAgree(e);
  }

  lemma {:induction false} AppliedMonotone(e: Book, i: int, s: int, t: int)
    requires s <= t
    ensures AppliedTo(e, i, s) <= AppliedTo(e, i, t)
    decreases t - s
  {
    if s < t {
      AppliedMonotone(e, i, s, t - 1);
    }
  }

  /** It passes as long as no name has more than eight written accruals, nine with a fee on the grid. */
  lemma {:induction false} NameLevelPasses(e: Book)
    requires Regular(e)
    requires forall i :: 0 <= i < |e.items| ==> (if FeesOnGrid(e) then 0 else 1) + AppliedTo(e, i, e.Last()) < 10
    ensures NamesWithin(e)
  {
    forall t, i | 0 <= t < |e.path| && 0 <= i < |e.items| ensures NameWithinAt(e, i, t) {
      AppliedMonotone(e, i, t, e.Last());
      NameRowWithin(e, i, t);
    }
  }

  /** In a ledger cohort, as long as every name's accruals and fee stay under ten half-quanta. */
  lemma {:induction false} LedgerNamesPass(e: Book, k: int)
    requires FeeDrift.LedgerFees(e, k)
    requires forall i :: 0 <= i < |e.items| ==> FeeDrift.FeeHalves(k) + AppliedTo(e, i, e.Last()) as real < 10.0
    ensures NamesWithin(e)
  {
    forall t, i | 0 <= t < |e.path| && 0 <= i < |e.items| ensures NameWithinAt(e, i, t) {
      AppliedMonotone(e, i, t, e.Last());
      FeeDrift.LedgerNamePasses(e, k, i, t);
    }
  }
}
