/** The two daily loops, run on the same exact book, write the same rows at every session. */
module Lockstep {
  import opened Optional
  import opened Sums
  import opened Books
  import PrimaryDaily
  import ReferenceDaily

  /** What the pipeline guarantees about a book: positive closes, legs matching the sign of the holding,
      distinct tickers, and no distribution dated at entry. */
  predicate Regular(b: Book) {
    && 1 < |b.path|
    && (forall i, t :: 0 <= i < |b.items| && 0 <= t < |b.path| ==> b.Close(i, t) > 0.0)
    && (forall i :: 0 <= i < |b.items| ==>
          (if b.items[i].leg == Long then b.items[i].quantity > 0.0 else b.items[i].quantity < 0.0))
    && b.DistinctTickers()
    && (forall i :: 0 <= i < |b.items| ==> NothingOn(b.items[i].accruals, b.path[0]))
  }

  predicate NothingOn(accruals: seq<Accrual>, day: int) {
    forall a :: 0 <= a < |accruals| ==> accruals[a].date != day
  }

  lemma {:induction false} NothingAccrued(accruals: seq<Accrual>, day: int)
    requires NothingOn(accruals, day)
    ensures DatedTotal(accruals, day) == 0.0 && DatedKeys(accruals, day) == []
  {
    if accruals != [] {
      NothingAccrued(accruals[..|accruals| - 1], day);
    }
  }

  /** Counting accruals from entry or from the session after entry makes no difference. */
  lemma {:induction false} SameAccrued(b: Book, i: nat, t: int)
    requires i < |b.items| && 0 < |b.path| && NothingOn(b.items[i].accruals, b.path[0])
    ensures b.Accrued(i, 0, t) == b.Accrued(i, 1, t)
    decreases t
  {
    if t >= 1 {
      SameAccrued(b, i, t - 1);
    } else if t == 0 {
      NothingAccrued(b.items[i].accruals, b.path[0]);
      assert b.Accrued(i, 0, -1) == 0.0;
    }
  }

  /** Accruals dated at entry are exactly what separates the two receivables: one loop books them, the other skips
      them. */
  lemma {:induction false} EntryAccrualGap(b: Book, i: nat, t: nat)
    requires i < |b.items| && t < |b.path|
    ensures b.Accrued(i, 0, t) == b.Accrued(i, 1, t) + b.AccruedOn(i, 0)
  {
    if t > 0 {
      EntryAccrualGap(b, i, t - 1);
    } else {
      assert b.Accrued(i, 0, -1) == 0.0;
    }
  }

  lemma SameReceivable(b: Book, t: int)
    requires Regular(b)
    ensures b.Receivable(0, t) == b.Receivable(1, t)
  {
    forall i | 0 <= i < |b.items| ensures b.Receivables(0, t)(i) == b.Receivables(1, t)(i) {
      SameAccrued(b, i, t);
    }
    SumCongruent(|b.items|, b.Receivables(0, t), b.Receivables(1, t));
  }

  lemma SameNav(b: Book, t: int)
    requires Regular(b)
    ensures b.Nav(0, t) == b.Nav(1, t)
  {
    SameReceivable(b, t);
  }

  lemma ProductSign(q: real, c: real)
    requires c > 0.0
    ensures q > 0.0 ==> q * c > 0.0
    ensures q < 0.0 ==> q * c < 0.0
  {
  }

  /** Splitting gross exposure by the sign of the market value is splitting it by leg. */
  lemma SameGross(b: Book, t: nat)
    requires Regular(b) && t < |b.path|
    ensures SumTo(|b.items|, b.LongBySign(t)) == SumTo(|b.items|, b.LongByLeg(t))
    ensures SumTo(|b.items|, b.ShortBySign(t)) == -SumTo(|b.items|, b.ShortByLeg(t))
  {
    var n := |b.items|;
    forall i | 0 <= i < n
      ensures b.LongBySign(t)(i) == b.LongByLeg(t)(i) && b.ShortBySign(t)(i) == -1.0 * b.ShortByLeg(t)(i)
    {
      ProductSign(b.Shares(i), b.Close(i, t));
      assert 0.0 * b.Close(i, t) == 0.0;
    }
    SumCongruent(n, b.LongBySign(t), b.LongByLeg(t));
    SumScaled(n, -1.0, b.ShortByLeg(t), b.ShortBySign(t));
  }

  /** Before exit every name is open; at exit none is. */
  lemma {:induction false} OpenPositions(b: Book, t: nat, n: nat)
    requires Regular(b) && t < |b.path| && n <= |b.items|
    ensures ReferenceDaily.OpenCount(b, t, n) == if t == b.Last() then 0 else n
  {
    if n > 0 {
      OpenPositions(b, t, n - 1);
    }
  }

  lemma SameName(b: Book, i: nat, t: nat)
    requires Regular(b) && i < |b.items| && t < |b.path|
    ensures PrimaryDaily.PrimaryName(b, i, t) == ReferenceDaily.ReferenceName(b, i, t)
  {
    SameAccrued(b, i, t);
    PrimaryDaily.DistinctIsUnseen(b, i, i);
    if t == 0 {
      NothingAccrued(b.items[i].accruals, b.path[0]);
    }
  }

  lemma SameCohort(b: Book, t: nat)
    requires Regular(b) && t < |b.path|
    ensures PrimaryDaily.PrimaryCohort(b, t).(checkpointFees := None) == ReferenceDaily.ReferenceCohort(b, t)
  {
    SameReceivable(b, t);
    SameNav(b, t);
    SameNav(b, t - 1);
    SameGross(b, t);
    OpenPositions(b, t, |b.items|);
  }

  /** A session without the checkpoint fees, which only the primary ledger writes. */
  function Common(s: Session): Session { s.(cohort := s.cohort.(checkpointFees := None)) }

  /** Lockstep: at every session both loops book the same orders, positions, accruals, balances, market values,
      P&L, cash, receivable, NAV, fees, gross legs and open positions, for every name. */
  lemma SameSession(b: Book, t: nat)
    requires Regular(b) && t < |b.path|
    ensures Common(PrimaryDaily.PrimarySession(b, t)) == ReferenceDaily.ReferenceSession(b, t)
  {
    SameCohort(b, t);
    forall i | 0 <= i < |b.items|
      ensures PrimaryDaily.PrimarySession(b, t).names[i] == ReferenceDaily.ReferenceSession(b, t).names[i]
    {
      SameName(b, i, t);
    }
  }

  /** So do the rows as written. */
  lemma SameRows(b: Book, t: nat)
    requires Regular(b) && t < |b.path|
    ensures Common(PrimaryDaily.FixedSessions(b, |b.path|)[t]) == ReferenceDaily.FixedSessions(b, |b.path|)[t]
  {
    SameSession(b, t);
    var p, r := PrimaryDaily.PrimarySession(b, t), ReferenceDaily.ReferenceSession(b, t);
    assert FixCohort(p.cohort).(checkpointFees := None) == FixCohort(r.cohort);
    assert p.names == r.names;
  }
}
