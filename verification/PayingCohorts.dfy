/** A cohort of every size in which one name moves and pays: the flat cohort, with its last name paying n distributions
    of one size. Its books can be read off, so it shows how many distributions the tolerance bears. */
module PayingCohorts {
  import opened Rounding
  import opened Sums
  import opened Books
  import opened ExecutionLedger
  import opened Divergence
  import opened Closings
  import opened DistributionCounts
  import opened FlatCohorts
  import CohortSizes
  import LedgerValidity
  import Lockstep
  import ReferenceDaily

  /** What the last name does, in money of the whole position: n distributions of `share` each, and a price move of
      `move`. It enters at two, so a position of 1/k holds 1/(2k) units. */
  datatype Payer = Payer(n: nat, share: real, move: real)

  /** The position a price or amount is scaled to. */
  function Scale(k: int): real { (2 * k) as real }

  function ExitPrice(k: int, y: Payer): real { 2.0 + Scale(k) * y.move }

  function Paid(k: int, y: Payer): seq<Accrual> {
    seq(y.n, i requires 0 <= i < y.n => Accrual(63, Scale(k) * y.share, Name(i)))
  }

  function PayingPath(k: int, y: Payer): Resolution {
    var exit, cash := ExitPrice(k, y), y.n as real * (Scale(k) * y.share);
    var gross := (exit + cash) / 2.0 - 1.0;
    Resolution(2.0, 0, 63, 2.0, exit, cash, exit + cash, gross, gross, Paid(k, y))
  }

  function PayingEntries(k: nat, y: Payer): (r: seq<Entry>)
    requires k > 0
    ensures |r| == 2 * k
    ensures forall i :: 0 <= i < 2 * k - 1 ==>
              r[i] == Entry(Name(i), Name(i), if i < k then Short else Long, CohortSizes.PathTo(1.0))
    ensures r[2 * k - 1] == Entry(Name(2 * k - 1), Name(2 * k - 1), Long, PayingPath(k, y))
  {
    FlatEntries(k)[2 * k - 1 := Entry(Name(2 * k - 1), Name(2 * k - 1), Long, PayingPath(k, y))]
  }

  function PayingPrices(k: nat, y: Payer): Prices
    requires k > 0
  {
    FlatPrices(2 * k)[(Name(2 * k - 1), 0) := 2.0][(Name(2 * k - 1), 63) := ExitPrice(k, y)]
  }

  /** A payer whose path exists: it pays something each time, and its price stays positive. */
  predicate Pays(k: int, y: Payer) { k > 0 && y.share > 0.0 && ExitPrice(k, y) > 0.0 }

  lemma ScaledPositive(k: int, x: real)
    requires k > 0 && x > 0.0
    ensures Scale(k) * x > 0.0
  {
  }

  // ----- it is a matching cohort -----

  lemma {:induction false} PaidTotal(k: int, y: Payer)
    ensures SumTo(y.n, Amounts(Paid(k, y))) == y.n as real * (Scale(k) * y.share)
  {
    SumConstant(y.n, Scale(k) * y.share, Amounts(Paid(k, y)));
  }

  lemma PaidAccepted(k: int, y: Payer)
    requires Pays(k, y)
    ensures DistributionsAccepted(PayingPath(k, y))
  {
    var paid := Paid(k, y);
    ScaledPositive(k, y.share);
    forall i, j | 0 <= i < j < |paid| ensures paid[i].key != paid[j].key {
      assert |Name(i)| != |Name(j)|;
    }
  }

  lemma PayingAccepted(k: int, y: Payer)
    requires Pays(k, y)
    ensures PathAccepted(PayingPath(k, y)) && PayingPath(k, y).cashTotal == LedgerValidity.Total(PayingPath(k, y))
  {
    ScaledPositive(k, y.share);
    CountedPositive(y.n, Scale(k) * y.share);
    PaidAccepted(k, y);
    PaidTotal(k, y);
  }

  lemma CountedPositive(n: nat, x: real)
    requires x > 0.0
    ensures n as real * x >= 0.0
  {
  }

  lemma {:induction false} PayingPricesPositive(k: nat, y: Payer)
    requires Pays(k, y)
    ensures PositivePrices(PayingPrices(k, y))
  {
    FlatPricesPositive(2 * k);
  }

  lemma PayingPathMatches(k: nat, y: Payer, i: nat)
    requires Pays(k, y) && i < 2 * k
    ensures PathMatches(PayingEntries(k, y)[i], Days, PayingPrices(k, y))
    ensures (PayingEntries(k, y)[i].ticker, 0) in PayingPrices(k, y)
    ensures (PayingEntries(k, y)[i].ticker, 63) in PayingPrices(k, y)
  {
    PricedOnBoth(2 * k, i);
    if i < 2 * k - 1 {
      UnmovedPathMatches(k, y, i);
    } else {
      PayingAccepted(k, y);
    }
  }

  lemma UnmovedPathMatches(k: nat, y: Payer, i: nat)
    requires k > 0 && i < 2 * k - 1
    ensures PathMatches(PayingEntries(k, y)[i], Days, PayingPrices(k, y))
  {
    PricedOnBoth(2 * k, i);
    CohortSizes.PathToAccepted(1.0);
    assert |Name(i)| != |Name(2 * k - 1)|;
  }

  lemma {:induction false} PayingMatches(k: nat, y: Payer)
    requires Pays(k, y)
    ensures CohortMatches(PayingEntries(k, y), k, Days, PayingPrices(k, y))
  {
    var entries, prices := PayingEntries(k, y), PayingPrices(k, y);
    PayingPricesPositive(k, y);
    forall i | 0 <= i < |entries|
      ensures PathMatches(entries[i], Days, prices) && entries[i].ticker == entries[i].mTicker == Name(i)
      ensures (entries[i].ticker, 0) in prices && (entries[i].ticker, 63) in prices
    {
      PayingPathMatches(k, y, i);
    }
    forall i, j | 0 <= i < j < |entries| ensures entries[i].ticker != entries[j].ticker {
      assert |Name(i)| != |Name(j)|;
    }
    PayingPathsPriced(entries, k, prices);
  }

  lemma PayingPathsPriced(entries: seq<Entry>, k: int, prices: Prices)
    requires k > 0 && PositivePrices(prices)
    requires forall i :: 0 <= i < |entries| ==> (entries[i].ticker, 0) in prices && (entries[i].ticker, 63) in prices
    ensures ReferenceDaily.PathsPriced(SelectedOf(entries, k), Days, prices)
  {
    var names := SelectedOf(entries, k);
    forall i, t | 0 <= i < |names| && 0 <= t < |Days|
      ensures (names[i].ticker, Days[t]) in prices && prices[(names[i].ticker, Days[t])] > 0.0
    {
      assert names[i].ticker == entries[i].ticker;
    }
  }

  lemma {:induction false} PayingCount(k: nat, y: Payer)
    requires k > 0
    ensures Distributions(PayingEntries(k, y)) == y.n
  {
    var entries := PayingEntries(k, y);
    var front := entries[..2 * k - 1];
    NothingPaid(front);
  }

  // ----- its books -----

  function PayingBook(k: nat, y: Payer): Book
    requires Pays(k, y)
  {
    PayingMatches(k, y);
    ExactBook(PayingEntries(k, y), k, Days, PayingPrices(k, y))
  }

  /** Accruals of one size, all on the exit day. */
  predicate AllAlike(accruals: seq<Accrual>, each: real) {
    forall i :: 0 <= i < |accruals| ==> accruals[i].date == 63 && accruals[i].amount == each
  }

  /** A share of the position times what a unit does is what the position does. */
  lemma Unscaled(k: int, x: real)
    requires k > 0
    ensures (1.0 / k as real) / 2.0 * (Scale(k) * x) == x
  {
    var q, c := (1.0 / k as real) / 2.0, Scale(k);
    OneScale(k);
    Regrouped(q, c, x);
  }

  lemma OneScale(k: int)
    requires k > 0
    ensures (1.0 / k as real) / 2.0 * Scale(k) == 1.0
  {
    var u := 1.0 / k as real;
    assert u * k as real == 1.0;
    assert Scale(k) == 2.0 * k as real;
  }

  lemma Regrouped(a: real, b: real, c: real)
    ensures a * (b * c) == (a * b) * c
  {
  }

  lemma PayerHolding(k: nat, y: Payer)
    requires Pays(k, y)
    ensures var item := PayingBook(k, y).items[2 * k - 1];
            && item.leg == Long && item.quantity == (1.0 / k as real) / 2.0 && |item.accruals| == y.n
            && AllAlike(item.accruals, y.share)
  {
    var item, p := PayingBook(k, y).items[2 * k - 1], PayingPath(k, y);
    assert item.quantity == Shares(Long, k, p);
    Unscaled(k, y.share);
    forall i | 0 <= i < y.n ensures item.accruals[i].date == 63 && item.accruals[i].amount == y.share {
      assert item.accruals[i] == ReferenceDaily.ScaledOne(p.distributions[i], item.quantity);
    }
  }

  lemma OthersHold(k: nat, y: Payer, i: nat)
    requires Pays(k, y) && i < 2 * k - 1
    ensures PayingBook(k, y).items[i].accruals == []
  {
    assert PayingEntries(k, y)[i].path.distributions == [];
  }

  lemma {:induction false} EqualDated(accruals: seq<Accrual>, each: real)
    requires AllAlike(accruals, each)
    ensures DatedTotal(accruals, 63) == |accruals| as real * each
  {
    if accruals != [] {
      EqualDated(accruals[..|accruals| - 1], each);
      assert |accruals| as real * each == (|accruals| - 1) as real * each + each;
    }
  }

  /** What one name has accrued by exit, of a two-session book. */
  lemma {:induction false} AccruedByExit(b: Book, i: nat, each: real)
    requires b.path == Days && i < |b.items| && AllAlike(b.items[i].accruals, each)
    ensures b.Accrued(i, 0, 1) == |b.items[i].accruals| as real * each == b.AccruedOn(i, 1)
  {
    EqualDated(b.items[i].accruals, each);
    Lockstep.NothingAccrued(b.items[i].accruals, 0);
    assert b.Accrued(i, 0, -1) == 0.0;
    assert b.Accrued(i, 0, 0) == b.Accrued(i, 0, -1) + b.AccruedOn(i, 0);
    assert b.Accrued(i, 0, 1) == b.Accrued(i, 0, 0) + b.AccruedOn(i, 1);
  }

  lemma {:induction false} OnlyLastAccrues(b: Book, each: real)
    requires b.path == Days && |b.items| > 0 && AllAlike(b.items[|b.items| - 1].accruals, each)
    requires forall i :: 0 <= i < |b.items| - 1 ==> b.items[i].accruals == []
    ensures b.Receivable(0, 1) == |b.items[|b.items| - 1].accruals| as real * each
  {
    var n, f := |b.items| - 1, b.Receivables(0, 1);
    forall i | 0 <= i < n ensures f(i) == 0.0 {
      AccruedByExit(b, i, 0.0);
    }
    SumConstant(n, 0.0, f);
    AccruedByExit(b, n, each);
  }

  /** Only the last name accrues: n times the same. */
  predicate OnlyPayer(b: Book, n: nat, each: real) {
    && b.path == Days && |b.items| > 0 && AllAlike(b.items[|b.items| - 1].accruals, each)
    && |b.items[|b.items| - 1].accruals| == n
    && forall i :: 0 <= i < |b.items| - 1 ==> b.items[i].accruals == []
  }

  lemma {:induction false} PayingIsOnlyPayer(k: nat, y: Payer)
    requires Pays(k, y)
    ensures OnlyPayer(PayingBook(k, y), y.n, y.share)
  {
    PayerHolding(k, y);
    forall i | 0 <= i < 2 * k - 1 ensures PayingBook(k, y).items[i].accruals == [] {
      OthersHold(k, y, i);
    }
  }

  /** Writing keeps who accrues and when, and writes each amount. */
  lemma {:induction false} WrittenPayer(e: Book, n: nat, each: real)
    requires OnlyPayer(e, n, each)
    ensures OnlyPayer(Written(e), n, Money(each))
  {
    var p := Written(e);
    forall i | 0 <= i < |e.items| ensures p.items[i].accruals == WrittenAccruals(e.items[i].accruals) {
      assert p.items[i] == WrittenItem(e.items[i]);
    }
  }

  /** The exact receivable and the written one. */
  lemma {:induction false} PayerReceivables(e: Book, n: nat, each: real)
    requires OnlyPayer(e, n, each)
    ensures e.Receivable(0, 1) == n as real * each && Written(e).Receivable(0, 1) == n as real * Money(each)
  {
    OnlyLastAccrues(e, each);
    WrittenPayer(e, n, each);
    OnlyLastAccrues(Written(e), Money(each));
  }

  lemma FlatNet(leg: Leg, k: int)
    requires k > 0
    ensures Exact(leg, k, CohortSizes.PathTo(1.0)).net == -(Fee(k) + Fee(k))
  {
    var q := Shares(leg, k, CohortSizes.PathTo(1.0));
    assert Times(q, 0.0) == 0.0;
  }

  lemma PayerNet(k: int, y: Payer)
    requires Pays(k, y)
    ensures Exact(Long, k, PayingPath(k, y)).net == y.move + y.n as real * y.share - (Fee(k) + Fee(k))
  {
    var p := PayingPath(k, y);
    var q, c := Shares(Long, k, p), Scale(k);
    assert q == (1.0 / k as real) / 2.0;
    Unscaled(k, y.move);
    Unscaled(k, y.n as real * y.share);
    assert y.n as real * (c * y.share) == c * (y.n as real * y.share);
    assert Times(q, p.exitPrice - p.entry) == y.move;
    assert Times(q, p.cashTotal) == y.n as real * y.share;
  }

  /** The exact closing NAV: what the payer made, less 1.2%. */
  lemma {:induction false} PayingNav(k: nat, y: Payer)
    requires Pays(k, y)
    ensures PayingBook(k, y).Nav(0, 1) == 0.988 + y.move + y.n as real * y.share
  {
    PayingMatches(k, y);
    NavCloses(PayingEntries(k, y), k, Days, PayingPrices(k, y));
    PayingNets(k, y);
  }

  lemma {:induction false} PayingNets(k: nat, y: Payer)
    requires Pays(k, y) && AllModelable(PayingEntries(k, y))
    ensures SumTo(2 * k, ExactNets(PayingEntries(k, y), k)) == y.move + y.n as real * y.share - 0.012
  {
    var entries, f, c := PayingEntries(k, y), ExactNets(PayingEntries(k, y), k), -(Fee(k) + Fee(k));
    forall i | 0 <= i < 2 * k - 1 ensures f(i) == c {
      FlatNet(entries[i].leg, k);
    }
    PayerNet(k, y);
    LastDiffers(2 * k - 1, f, c, y.move + y.n as real * y.share);
    AllFees(k);
  }

  lemma {:induction false} LastDiffers(n: nat, f: int -> real, c: real, more: real)
    requires f(n) == more + c && forall i :: 0 <= i < n ==> f(i) == c
    ensures SumTo(n + 1, f) == n as real * c + c + more
  {
    SumConstant(n, c, f);
  }

  lemma AllFees(k: int)
    requires k > 0
    ensures (2 * k - 1) as real * -(Fee(k) + Fee(k)) + -(Fee(k) + Fee(k)) == -0.012
  {
    var kr, fee := k as real, Fee(k);
    assert kr * fee == 0.003;
    AllFeesOf(k, kr, fee);
  }

  lemma AllFeesOf(k: int, kr: real, fee: real)
    requires kr == k as real && kr * fee == 0.003
    ensures (2 * k - 1) as real * -(fee + fee) + -(fee + fee) == -0.012
  {
    assert (2 * k - 1) as real == 2.0 * kr - 1.0;
    assert (2.0 * kr - 1.0) * -(fee + fee) == -4.0 * (kr * fee) + (fee + fee);
  }

  /** The payer's price move, in money of its position. */
  lemma {:induction false} PayerMove(k: nat, y: Payer)
    requires Pays(k, y)
    ensures PayingBook(k, y).PriceMove(2 * k - 1, 1) == y.move
  {
    PayerHolding(k, y);
    PayerCloses(k, y);
    MoveOf(PayingBook(k, y), 2 * k - 1, (1.0 / k as real) / 2.0, 2.0, ExitPrice(k, y));
    Unscaled(k, y.move);
  }

  lemma PayerCloses(k: nat, y: Payer)
    requires Pays(k, y)
    ensures PayingBook(k, y).Close(2 * k - 1, 0) == 2.0 && PayingBook(k, y).Close(2 * k - 1, 1) == ExitPrice(k, y)
  {
    var e, i := PayingBook(k, y), 2 * k - 1;
    assert e.items[i].ticker == Name(i) && e.path[0] == 0 && e.path[1] == 63;
  }

  lemma MoveOf(b: Book, i: nat, q: real, entry: real, exit: real)
    requires i < |b.items| && b.items[i].quantity == q && b.Close(i, 0) == entry && b.Close(i, 1) == exit
    ensures b.PriceMove(i, 1) == q * (exit - entry)
  {
  }
}
