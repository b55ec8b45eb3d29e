/** Conservation laws of a cohort book, in exact arithmetic: the NAV is the initial unit plus price P&L
    plus accruals minus fees, session by session and over the whole run. */
module BookLaws {
  import opened Sums
  import opened Books

  lemma {:induction false} NoAccrualBefore(b: Book, i: int, from: int, t: int)
    requires t < 0
    ensures b.Accrued(i, from, t) == 0.0
    decreases t - from
  {
    if from <= t {
      NoAccrualBefore(b, i, from, t - 1);
    }
  }

  /** A name's exact P&L on session t alone. */
  function NetPnls(b: Book, from: int, t: int): int -> real {
    i => b.PriceMove(i, t) + (if t < from then 0.0 else b.AccruedOn(i, t)) - b.FeeOn(i, t)
  }

  /** A name's exact P&L from entry through session t. */
  function PnlsTo(b: Book, from: int, t: int): int -> real {
    i => b.Shares(i) * (b.Close(i, t) - b.Close(i, 0)) + b.Accrued(i, from, t) - b.FeesTo(i, t)
  }

  /** Everything a name is worth to the book at session t. */
  function Worths(b: Book, from: int, t: int): int -> real {
    i => b.NameCash(i, t) + b.Accrued(i, from, t) + b.MarketValue(i, t)
  }

  lemma NavIsWorth(b: Book, from: int, t: nat)
    ensures b.Nav(from, t) == 1.0 + SumTo(|b.items|, Worths(b, from, t))
  {
    var n := |b.items|;
    var partial := (i: int) => b.Cashes(t)(i) + b.Receivables(from, t)(i);
    SumOfSums(n, b.Cashes(t), b.Receivables(from, t), partial);
    SumOfSums(n, partial, b.Markets(t), Worths(b, from, t));
  }

  lemma WorthIsPnl(b: Book, from: int, i: int, t: nat)
    requires t < |b.path| && 1 < |b.path|
    ensures Worths(b, from, t)(i) == PnlsTo(b, from, t)(i)
  {
    var q, p, c := b.Shares(i), b.Close(i, 0), b.Close(i, t);
    assert q * (c - p) == q * c - q * p;
    assert b.MarketValue(i, t) == (if t == b.Last() then 0.0 else q * c);
  }

  /** Conservation over the run: nothing but price moves, accruals and fees ever changes the NAV. */
  lemma Conservation(b: Book, from: int, t: nat)
    requires t < |b.path| && 1 < |b.path|
    ensures b.Nav(from, t) == 1.0 + SumTo(|b.items|, PnlsTo(b, from, t))
  {
    NavIsWorth(b, from, t);
    forall i | 0 <= i < |b.items| ensures Worths(b, from, t)(i) == PnlsTo(b, from, t)(i) {
      WorthIsPnl(b, from, i, t);
    }
    SumCongruent(|b.items|, Worths(b, from, t), PnlsTo(b, from, t));
  }

  lemma NetPnlIsChange(b: Book, from: int, i: int, t: nat)
    requires 0 <= from <= 1 && t < |b.path| && 1 < |b.path|
    ensures NetPnls(b, from, t)(i) == PnlsTo(b, from, t)(i) - (if t == 0 then 0.0 else PnlsTo(b, from, t - 1)(i))
  {
    var q, p, c := b.Shares(i), b.Close(i, 0), b.Close(i, t);
    if t == 0 {
      NoAccrualBefore(b, i, from, -1);
      assert q * (p - p) == 0.0;
    } else {
      var d := b.Close(i, t - 1);
      assert q * (c - p) - q * (d - p) == q * (c - d);
    }
  }

  /** Conservation of one session: its P&L is the sum of the names' contributions. */
  lemma ContributionsAddUp(b: Book, from: int, t: nat)
    requires 0 <= from <= 1 && t < |b.path| && 1 < |b.path|
    ensures SumTo(|b.items|, NetPnls(b, from, t)) == b.Nav(from, t) - b.Nav(from, t - 1)
  {
    var n := |b.items|;
    forall i | 0 <= i < n
      ensures NetPnls(b, from, t)(i) == PnlsTo(b, from, t)(i) - (if t == 0 then 0.0 else PnlsTo(b, from, t - 1)(i))
    {
      NetPnlIsChange(b, from, i, t);
    }
    Conservation(b, from, t);
    if t == 0 {
      SumCongruent(n, NetPnls(b, from, 0), PnlsTo(b, from, 0));
    } else {
      Conservation(b, from, t - 1);
      SumOfDifferences(n, PnlsTo(b, from, t), PnlsTo(b, from, t - 1), NetPnls(b, from, t));
    }
  }

  /** The book is flat at exit: no position, no market value, whatever was traded. */
  lemma FlatAtExit(b: Book)
    requires 1 < |b.path|
    ensures forall i :: b.Position(i, b.Last()) == 0.0
    ensures forall i :: b.Order(i, 0) + b.Order(i, b.Last()) == 0.0
    ensures b.Market(b.Last()) == 0.0
  {
    SumConstant(|b.items|, 0.0, b.Markets(b.Last()));
  }
}
