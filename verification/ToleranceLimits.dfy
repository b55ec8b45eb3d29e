/** How many distributions the component tolerance bears: exactly, for every leg size. */
module ToleranceLimits {
  import opened Rounding
  import opened Residues
  import opened Books
  import opened Divergence
  import opened ComponentTolerance
  import opened ComponentVerdict
  import opened NameVerdict
  import opened Closings
  import opened CohortReconciliation
  import opened DistributionCounts
  import opened FlatCohorts
  import opened PayingCohorts
  import FeeDrift
  import Lockstep
  import ReferenceDaily

  /** The way the fees already drift; a payer's rounding is chosen to drift the same way. */
  function Side(k: int): int
    requires k > 0
  {
    if FeeDrift.Residue(k) > 0 then -1 else 1
  }

  /** An accrual that ties: one and a half quanta are written as two, two and a half as two as well. */
  function Tie(side: int): real {
    if side == 1 then 0.000_000_000_000_000_001_5 else 0.000_000_000_000_000_002_5
  }

  lemma TieWritten(side: int)
    requires side == 1 || side == -1
    ensures Money(Tie(side)) - Tie(side) == Quanta(side) / 2.0
  {
    HalfEvenUnique(Tie(side) * 1_000_000_000_000_000_000.0, 2);
  }

  // ----- the cohort level -----

  /** Every ledger cohort of k names per leg and at most a distributions reconciles on the cohort level. */
  ghost predicate AlwaysReconciles(k: int, a: nat, order: (int, int) -> bool) {
    forall entries, days, prices :: CohortMatches(entries, k, days, prices) && Distributions(entries) <= a ==>
      CohortFindings(ExactBook(entries, k, days, prices), order) == []
  }

  /** Ten ties, or two next to four residues, and a price move that puts the NAV itself on a tie. */
  function CohortPayer(k: int): Payer
    requires k > 0 && -1 <= FeeDrift.Residue(k) <= 1
  {
    Payer(if FeeDrift.Residue(k) == 0 then 10 else 2, Tie(Side(k)),
          if Side(k) == 1 then 0.000_000_000_000_000_001_5 else 0.000_000_000_000_000_000_5)
  }

  lemma CohortPayerPays(k: int)
    requires k > 0 && -1 <= FeeDrift.Residue(k) <= 1
    ensures Pays(k, CohortPayer(k))
  {
    ScaledPositive(k, CohortPayer(k).move);
  }

  /** The written NAV at exit: the exact one, less four residues, and what the ties add. */
  lemma {:induction false} WrittenNav(e: Book, k: int, n: nat, each: real)
    requires FeeDrift.LedgerFees(e, k) && OnlyPayer(e, n, each)
    ensures Written(e).Nav(0, 1) == e.Nav(0, 1) - Quanta(4 * FeeDrift.Residue(k)) + n as real * (Money(each) - each)
  {
    FeeDrift.CashDrift(e, k, 1);
    assert FeeDrift.Overcharge(e, k, 1) == 4 * FeeDrift.Residue(k);
    PayerReceivables(e, n, each);
    SameMarket(e, 1);
    assert n as real * (Money(each) - each) == n as real * Money(each) - n as real * each;
  }

  lemma {:induction false} WrittenSix(x: real, y: real, low: int, high: int)
    requires low % 2 == 0 && high % 2 == 0 && (high - low == 6 || low - high == 6)
    requires x == 0.988 + Quanta(2 * high + (if high > low then -1 else 1)) / 2.0
    requires y == 0.988 + Quanta(2 * low + (if high > low then 1 else -1)) / 2.0
    ensures !Within(Money(x), Money(y))
  {
    var toward := if high > low then 1 else -1;
    TiedWritten(x, high, -toward);
    TiedWritten(y, low, toward);
  }

  /** A value half a quantum off an even number of quanta is written as that number. */
  lemma {:induction false} TiedWritten(x: real, n: int, off: int)
    requires n % 2 == 0 && (off == 1 || off == -1) && x == 0.988 + Quanta(2 * n + off) / 2.0
    ensures Money(x) == 0.988 + Quanta(n)
  {
    HalfEvenUnique(x * 1_000_000_000_000_000_000.0, 988_000_000_000_000_000 + n);
  }

  /** The two NAVs are five quanta apart, both on a tie, and are written six apart. */
  lemma NavsTie(k: int, y: real, x: real)
    requires k > 0 && -1 <= FeeDrift.Residue(k) <= 1
    requires var p := CohortPayer(k); y == 0.988 + p.move + p.n as real * p.share
    requires var p := CohortPayer(k);
             x == y - Quanta(4 * FeeDrift.Residue(k)) + p.n as real * (Quanta(Side(k)) / 2.0)
    ensures !Within(Money(x), Money(y))
  {
    if FeeDrift.Residue(k) == 0 {
      WrittenSix(x, y, 16, 22);
    } else if FeeDrift.Residue(k) == -1 {
      WrittenSix(x, y, 4, 10);
    } else {
      WrittenSix(x, y, 6, 0);
    }
  }

  /** A ledger cohort that closes on what its one paying name moved and paid. */
  predicate ClosesAsPaid(e: Book, k: int, y: Payer) {
    && FeeDrift.LedgerFees(e, k) && OnlyPayer(e, y.n, y.share)
    && e.Nav(0, 1) == 0.988 + y.move + y.n as real * y.share
  }

  lemma {:induction false} TiedBookFails(e: Book, k: int, order: (int, int) -> bool)
    requires k > 0 && -1 <= FeeDrift.Residue(k) <= 1 && ClosesAsPaid(e, k, CohortPayer(k))
    ensures CohortFindings(e, order) != []
  {
    var p := CohortPayer(k);
    WrittenNav(e, k, p.n, p.share);
    TieWritten(Side(k));
    NavsTie(k, e.Nav(0, 1), Written(e).Nav(0, 1));
    Lockstep.SameNav(e, 1);
    CohortLevelVerdict(e, order);
    assert !SessionWithin(e, 1);
  }

  /** The paying cohort does not reconcile. */
  lemma {:induction false} PayerFails(k: nat, order: (int, int) -> bool)
    requires k > 0 && -1 <= FeeDrift.Residue(k) <= 1
    ensures Pays(k, CohortPayer(k)) && CohortFindings(PayingBook(k, CohortPayer(k)), order) != []
  {
    CohortPayerPays(k);
    var p := CohortPayer(k);
    PayingFacts(k, p);
    TiedBookFails(PayingBook(k, p), k, order);
  }

  lemma {:induction false} PayingFacts(k: nat, y: Payer)
    requires Pays(k, y)
    ensures ClosesAsPaid(PayingBook(k, y), k, y)
  {
    PayingMatches(k, y);
    CohortFees(PayingEntries(k, y), k, Days, PayingPrices(k, y));
    PayingIsOnlyPayer(k, y);
    PayingNav(k, y);
  }

  /** The distributions the cohort level bears: with k names per leg every ledger cohort of at most a distributions
      reconciles if and only if four fee residues and a stay under ten half-quanta; that is, nine distributions when k
      divides 3*10^15, one when it misses by one, and none at all otherwise. */
  lemma {:induction false} SafeDistributions(k: nat, a: nat, order: (int, int) -> bool)
    requires k > 0
    ensures AlwaysReconciles(k, a, order) <==> FeeDrift.UnderTen(k, a)
  {
    if FeeDrift.UnderTen(k, a) {
      forall entries, days, prices | CohortMatches(entries, k, days, prices) && Distributions(entries) <= a
        ensures CohortFindings(ExactBook(entries, k, days, prices), order) == []
      {
        VerdictForeseen(entries, k, days, prices, order);
      }
    } else {
      FeeDrift.SmallResidue(k);
      if FeeDrift.FeeRule(k) {
        var p := CohortPayer(k);
        PayerFails(k, order);
        PayingMatches(k, p);
        PayingCount(k, p);
        FeeDrift.UnderTenByRemainder(k, a);
        FeeDrift.NoResidue(k);
      } else {
        FlatFails(k, order);
      }
    }
  }

  // ----- the constituent level -----

  /** Every ledger cohort of k names per leg, none with more than a distributions, reconciles on the constituent
      level. */
  ghost predicate NamesAlwaysReconcile(k: int, a: nat, order: (NameKey, NameKey) -> bool) {
    forall entries, days, prices :: CohortMatches(entries, k, days, prices) && EachAtMost(entries, a) ==>
      NameFindings(ExactBook(entries, k, days, prices), order) == []
  }

  predicate EachAtMost(entries: seq<Entry>, a: nat) {
    forall i :: 0 <= i < |entries| ==> |entries[i].path.distributions| <= a
  }

  /** Half a fee residue per name is the most a single fee can miss. */
  lemma FeeHalvesBound(k: int)
    requires k > 0
    ensures 0.0 <= FeeDrift.FeeHalves(k) <= 1.0
    ensures FeeDrift.FeeHalves(k) == 1.0 <==> 2 * (FeeDrift.RateQuanta % k) == k
  {
    FeeDrift.ResidueIsRemainder(k);
    var kr, m := k as real, 2.0 * Abs(FeeDrift.Residue(k) as real);
    assert 0.0 <= m <= kr;
    assert m == kr <==> 2 * (FeeDrift.RateQuanta % k) == k;
    QuotientToOne(m, kr);
  }

  lemma QuotientToOne(m: real, k: real)
    requires 0.0 <= m <= k && k > 0.0
    ensures 0.0 <= m / k <= 1.0 && (m / k == 1.0 <==> m == k)
  {
    assert (m / k) * k == m;
  }

  /** Nine ties when the fee itself is written from a tie, ten otherwise. */
  function NameCount(k: int): nat
    requires k > 0
  {
    if 2 * (FeeDrift.RateQuanta % k) == k then 9 else 10
  }

  /** How far the drift of such a name exceeds five quanta, halved: its exact P&L is kept that far below a tie. */
  function Excess(k: int): real
    requires k > 0
  {
    (NameCount(k) as real + FeeDrift.FeeHalves(k) - 10.0) / 4.0
  }

  /** Its session P&L at exit will be a hundred quanta and all but half a quantum. */
  function NamePayer(k: int): Payer
    requires k > 0
  {
    var n, side := NameCount(k), Side(k);
    Payer(n, Tie(side),
          (100.0 + side as real * (0.5 - Excess(k))) / 1_000_000_000_000_000_000.0
          - n as real * Tie(side) + 0.003 / k as real)
  }

  lemma NamePayerPays(k: int)
    requires k > 0
    ensures 0.0 <= Excess(k) <= 0.25 && Pays(k, NamePayer(k))
  {
    FeeHalvesBound(k);
    assert 0.003 / k as real > 0.0;
    ScaledPositive(k, NamePayer(k).move);
  }

  /** A lone payer's exact session P&L at exit, and the written one's. */
  lemma {:induction false} PayerPnl(e: Book, n: nat, each: real, move: real, fee: real)
    requires OnlyPayer(e, n, each) && e.PriceMove(|e.items| - 1, 1) == move && e.items[|e.items| - 1].exitFee == fee
    ensures var i := |e.items| - 1;
            && ReferenceDaily.ReferenceName(e, i, 1).netPnl == move + n as real * each - fee
            && ReferenceDaily.ReferenceName(Written(e), i, 1).netPnl == move + n as real * Money(each) - Money(fee)
  {
    var i := |e.items| - 1;
    WrittenPayer(e, n, each);
    AccruedByExit(e, i, each);
    AccruedByExit(Written(e), i, Money(each));
    SameHoldings(e, i, 1);
  }

  lemma SixApart(x: real, y: real, side: int, excess: real)
    requires (side == 1 || side == -1) && 0.0 <= excess <= 0.25
    requires y * 1_000_000_000_000_000_000.0 == 100.0 + side as real * (0.5 - excess)
    requires x * 1_000_000_000_000_000_000.0 == 100.0 + side as real * (5.5 + excess)
    ensures !Within(Money(x), Money(y))
  {
    HalfEvenUnique(y * 1_000_000_000_000_000_000.0, 100);
    HalfEvenUnique(x * 1_000_000_000_000_000_000.0, 100 + 6 * side);
  }

  lemma NameDrift(k: int, x: real, y: real)
    requires k > 0
    requires var p := NamePayer(k); y == p.move + p.n as real * p.share - 0.003 / k as real
    requires var p := NamePayer(k); x == p.move + p.n as real * Money(p.share) - Money(0.003 / k as real)
    ensures !Within(Money(x), Money(y))
  {
    var p, side, unit := NamePayer(k), Side(k), 1_000_000_000_000_000_000.0;
    NamePayerPays(k);
    TieWritten(side);
    FeeDrift.FeeMiss(k);
    SidedResidue(k);
    assert y * unit == 100.0 + side as real * (0.5 - Excess(k));
    assert p.n as real * Money(p.share) - p.n as real * p.share == p.n as real * (Money(p.share) - p.share);
    assert x - y == p.n as real * (Quanta(side) / 2.0) - Quanta(FeeDrift.Residue(k)) / k as real;
    assert x * unit == y * unit + side as real * ((p.n as real + FeeDrift.FeeHalves(k)) / 2.0);
    SixApart(x, y, side, Excess(k));
  }

  /** The fee's miss, in quanta, on the payer's side. */
  lemma SidedResidue(k: int)
    requires k > 0
    ensures -(Quanta(FeeDrift.Residue(k)) / k as real) * 1_000_000_000_000_000_000.0
            == Side(k) as real * (FeeDrift.FeeHalves(k) / 2.0)
  {
    var kr, m := k as real, FeeDrift.Residue(k) as real;
    assert Quanta(FeeDrift.Residue(k)) / kr == (m / kr) / 1_000_000_000_000_000_000.0;
    assert (2.0 * Abs(m)) / kr == 2.0 * (Abs(m) / kr);
    assert (-m) / kr == -(m / kr);
  }

  lemma {:induction false} TiedNameFails(e: Book, k: int)
    requires FeeDrift.LedgerFees(e, k) && OnlyPayer(e, NameCount(k), Tie(Side(k)))
    requires e.PriceMove(2 * k - 1, 1) == NamePayer(k).move
    ensures !NameWithinAt(e, 2 * k - 1, 1)
  {
    var p, i := NamePayer(k), 2 * k - 1;
    WrittenIsRegular(e);
    Lockstep.SameName(Written(e), i, 1);
    PayerPnl(e, p.n, p.share, p.move, 0.003 / k as real);
    NameDrift(k, ReferenceDaily.ReferenceName(Written(e), i, 1).netPnl, ReferenceDaily.ReferenceName(e, i, 1).netPnl);
  }

  /** The paying name does not reconcile. */
  lemma {:induction false} PayingNameFails(k: nat, order: (NameKey, NameKey) -> bool)
    requires k > 0
    ensures Pays(k, NamePayer(k)) && NameFindings(PayingBook(k, NamePayer(k)), order) != []
  {
    NamePayerPays(k);
    var p := NamePayer(k);
    PayingMatches(k, p);
    CohortFees(PayingEntries(k, p), k, Days, PayingPrices(k, p));
    NamesAreDistinct(PayingEntries(k, p), k, Days, PayingPrices(k, p));
    PayingIsOnlyPayer(k, p);
    PayerMove(k, p);
    OneNameFails(PayingBook(k, p), k, order);
  }

  lemma {:induction false} OneNameFails(e: Book, k: int, order: (NameKey, NameKey) -> bool)
    requires FeeDrift.LedgerFees(e, k) && e.DistinctNames() && OnlyPayer(e, NameCount(k), Tie(Side(k)))
    requires e.PriceMove(2 * k - 1, 1) == NamePayer(k).move
    ensures NameFindings(e, order) != []
  {
    TiedNameFails(e, k);
    NameLevelVerdict(e, order);
    assert !SessionNamesWithin(e, 1);
  }

  /** The distributions the constituent level bears: every ledger cohort with at most a distributions a name reconciles
      if and only if a and the fee's miss stay under ten half-quanta; that is, up to nine, or eight where 3*10^15/k is
      itself on a tie. */
  lemma {:induction false} SafeNameDistributions(k: nat, a: nat, order: (NameKey, NameKey) -> bool)
    requires k > 0
    ensures NamesAlwaysReconcile(k, a, order) <==> FeeDrift.FeeHalves(k) + a as real < 10.0
    ensures FeeDrift.FeeHalves(k) + a as real < 10.0 <==> a < NameCount(k)
  {
    FeeHalvesBound(k);
    if FeeDrift.FeeHalves(k) + a as real < 10.0 {
      forall entries, days, prices | CohortMatches(entries, k, days, prices) && EachAtMost(entries, a)
        ensures NameFindings(ExactBook(entries, k, days, prices), order) == []
      {
        FewEachPass(entries, k, days, prices, a, order);
      }
    } else {
      PayingNameFails(k, order);
      PayingMatches(k, NamePayer(k));
      PayingEach(k, NamePayer(k));
    }
  }

  lemma {:induction false} FewEachPass(entries: seq<Entry>, k: int, days: seq<int>, prices: Prices, a: nat,
                                       order: (NameKey, NameKey) -> bool)
    requires CohortMatches(entries, k, days, prices) && EachAtMost(entries, a)
    requires FeeDrift.FeeHalves(k) + a as real < 10.0
    ensures NameFindings(ExactBook(entries, k, days, prices), order) == []
  {
    NameVerdictForeseen(entries, k, days, prices, order);
  }

  lemma PayingEach(k: nat, y: Payer)
    requires k > 0
    ensures EachAtMost(PayingEntries(k, y), y.n)
  {
  }
}
