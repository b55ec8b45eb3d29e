/** The modeled execution ledger of analysis/pead_execution_ledger.py: constituents are built once per path,
    serialized, and re-checked by a validator that sees only the serialized numbers. */
module ExecutionLedger {
  import opened Rounding
  import opened Optional
  import opened Sums
  import opened Books

  /** A resolved nonterminal path as the source report describes it. */
  datatype Resolution = Resolution(
    entry: real, entryDate: int, exitDate: int, entryPrice: real, exitPrice: real, cashTotal: real,
    grossTerminal: real, grossReturn: real, candidate: real, distributions: seq<Accrual>)

  datatype WrittenAccrual = WrittenAccrual(date: int, amount: real, signed: real, key: string)

  datatype Constituent = Constituent(
    leg: Leg, entryDate: int, exitDate: int, entry: real, exit: real, cashTotal: real, accruals: seq<WrittenAccrual>,
    sourceReturn: real, reconstructed: real, target: real, quantity: real, pricePnl: real, distributionPnl: real,
    entryFee: real, exitFee: real, totalFees: real, netPnl: real)

  const SourceTolerance: real := 0.000_000_000_001
  const MoneyTolerance: real := 0.000_000_000_000_000_032
  const SummaryTolerance: real := 0.000_000_000_000_000_128

  function Amounts(distributions: seq<Accrual>): int -> real {
    i => if 0 <= i < |distributions| then distributions[i].amount else 0.0
  }

  /** The return rebuilt from its parts; the source's own figure is only a cross-check. */
  function Reconstructed(p: Resolution): real
    requires p.entry != 0.0
  {
    (p.exitPrice + p.cashTotal) / p.entry - 1.0
  }

  predicate InInterval(p: Resolution, a: Accrual) { p.entryDate < a.date <= p.exitDate && a.amount > 0.0 }

  predicate DistributionsAccepted(p: Resolution) {
    && (forall i :: 0 <= i < |p.distributions| ==> InInterval(p, p.distributions[i]))
    && (forall i, j :: 0 <= i < j < |p.distributions| ==> p.distributions[i].key != p.distributions[j].key)
  }

  /** What the builder demands of a path before modelling it. */
  predicate PathAccepted(p: Resolution)
    requires p.entry > 0.0
  {
    && p.entryPrice > 0.0 && p.exitPrice > 0.0 && p.cashTotal >= 0.0 && p.entryDate <= p.exitDate
    && Abs(p.entryPrice - p.entry) <= SourceTolerance
    && Abs(p.grossTerminal - (p.exitPrice + p.cashTotal)) <= SourceTolerance
    && Abs(p.candidate - Reconstructed(p)) <= SourceTolerance
    && Abs(p.grossReturn - Reconstructed(p)) <= SourceTolerance
    && DistributionsAccepted(p)
    && Abs(SumTo(|p.distributions|, Amounts(p.distributions)) - p.cashTotal) <= SourceTolerance
  }

  /** What the builder keeps of an accepted path. */
  datatype Parts = Parts(entry: real, exit: real, cashTotal: real, candidate: real, reconstructed: real, exitDate: int,
                         distributions: seq<Accrual>)

  /** The builder's reading of one path: its parts when every cross-check passes, and nothing otherwise. */
  method EconomicPath(p: Resolution) returns (r: Option<Parts>)
    requires p.entry > 0.0
    ensures r.Some? <==> PathAccepted(p)
    ensures r.Some? ==> r.value == Parts(p.entry, p.exitPrice, p.cashTotal, p.candidate, Reconstructed(p), p.exitDate,
                                         p.distributions)
  {
    if p.entryPrice <= 0.0 || Abs(p.entryPrice - p.entry) > SourceTolerance || p.exitPrice <= 0.0 || p.cashTotal < 0.0
    {
      return None;
    }
    if Abs(p.grossTerminal - (p.exitPrice + p.cashTotal)) > SourceTolerance {
      return None;
    }
    var reconstructed := Reconstructed(p);
    if Abs(p.candidate - reconstructed) > SourceTolerance || Abs(p.grossReturn - reconstructed) > SourceTolerance {
      return None;
    }
    if p.exitDate < p.entryDate {
      return None;
    }
    var total, seen: set<string>, parsed := 0.0, {}, [];
    for i := 0 to |p.distributions|
      invariant total == SumTo(i, Amounts(p.distributions))
      invariant seen == set j | 0 <= j < i :: p.distributions[j].key
      invariant parsed == p.distributions[..i]
      invariant forall j :: 0 <= j < i ==> InInterval(p, p.distributions[j])
      invariant forall m, n :: 0 <= m < n < i ==> p.distributions[m].key != p.distributions[n].key
    {
      var a := p.distributions[i];
      if !(p.entryDate < a.date <= p.exitDate) || a.amount <= 0.0 {
        assert !InInterval(p, p.distributions[i]);
        return None;
      }
      if a.key in seen {
        return None;
      }
      seen := seen + {a.key};
      total := total + a.amount;
      parsed := parsed + [a];
    }
    if Abs(total - p.cashTotal) > SourceTolerance {
      return None;
    }
    assert p.distributions[..|p.distributions|] == p.distributions;
    return Some(Parts(p.entry, p.exitPrice, p.cashTotal, p.candidate, reconstructed, p.exitDate, parsed));
  }

  // The exact economics of one selected path.

  function Target(leg: Leg, k: int): real
    requires k > 0
  {
    Sign(leg) / k as real
  }

  function Shares(leg: Leg, k: int, p: Resolution): real
    requires k > 0 && p.entry > 0.0
  {
    Target(leg, k) / p.entry
  }

  function Fee(k: int): real
    requires k > 0
  {
    0.003 / k as real
  }

  /** Shares times an amount per share. */
  function Times(q: real, x: real): real { q * x }

  /** Everything a row serializes, before serialization. */
  datatype Economics = Economics(target: real, quantity: real, pricePnl: real, distributionPnl: real, fee: real,
                                 gross: real, net: real)

  function Exact(leg: Leg, k: int, p: Resolution): Economics
    requires k > 0 && p.entry > 0.0
  {
    var q, fee := Shares(leg, k, p), Fee(k);
    var price, distribution := Times(q, p.exitPrice - p.entry), Times(q, p.cashTotal);
    Economics(Target(leg, k), q, price, distribution, fee, Reconstructed(p), price + distribution - fee - fee)
  }

  function WriteAccruals(q: real, distributions: seq<Accrual>): seq<WrittenAccrual> {
    seq(|distributions|, i requires 0 <= i < |distributions| =>
      WrittenAccrual(distributions[i].date, Money(distributions[i].amount), Money(Times(q, distributions[i].amount)),
                     distributions[i].key))
  }

  /** One ledger row, serialized field by field from exact values. */
  function Write(leg: Leg, p: Resolution, e: Economics): Constituent {
    Constituent(leg, p.entryDate, p.exitDate, Money(p.entry), Money(p.exitPrice), Money(p.cashTotal),
                WriteAccruals(e.quantity, p.distributions), Money(p.candidate), Money(e.gross), Money(e.target),
                Quantity(e.quantity), Money(e.pricePnl), Money(e.distributionPnl),
                Money(e.fee), Money(e.fee), Money(e.fee + e.fee), Money(e.net))
  }

  function Build(leg: Leg, k: int, p: Resolution): Constituent
    requires k > 0 && p.entry > 0.0
  {
    Write(leg, p, Exact(leg, k, p))
  }

  // The validator.

  function WrittenAmounts(accruals: seq<WrittenAccrual>): int -> real {
    i => if 0 <= i < |accruals| then accruals[i].amount else 0.0
  }

  function SignedAmounts(accruals: seq<WrittenAccrual>): int -> real {
    i => if 0 <= i < |accruals| then accruals[i].signed else 0.0
  }

  predicate AccrualValid(row: Constituent, a: WrittenAccrual) {
    && row.entryDate < a.date <= row.exitDate && a.amount > 0.0
    && Abs(a.signed - Times(row.quantity, a.amount)) <= MoneyTolerance
  }

  predicate AccrualsValid(row: Constituent) {
    && (forall i :: 0 <= i < |row.accruals| ==> AccrualValid(row, row.accruals[i]))
    && Abs(SumTo(|row.accruals|, WrittenAmounts(row.accruals)) - row.cashTotal) <= MoneyTolerance
  }

  predicate BasisValid(row: Constituent, k: int)
    requires k > 0
  {
    && row.entry > 0.0 && row.exit > 0.0 && row.cashTotal >= 0.0
    && Abs(row.reconstructed - ((row.exit + row.cashTotal) / row.entry - 1.0)) <= MoneyTolerance
    && Abs(row.sourceReturn - ((row.exit + row.cashTotal) / row.entry - 1.0)) <= SourceTolerance
    && Abs(row.target - Target(row.leg, k)) <= Q
    && Abs(row.quantity - Target(row.leg, k) / row.entry) <= 0.000_000_000_000_000_000_000_001
  }

  /** The fee and P&L equations, given the running total of the signed accruals. */
  predicate MoneyChecks(row: Constituent, k: int, signedTotal: real)
    requires k > 0
  {
    && Abs(row.entryFee - Fee(k)) <= Q && Abs(row.exitFee - Fee(k)) <= Q
    && Abs(row.totalFees - row.entryFee - row.exitFee) <= Q
    && Abs(row.pricePnl - Times(row.quantity, row.exit - row.entry)) <= MoneyTolerance
    && Abs(row.distributionPnl - signedTotal) <= MoneyTolerance
    && Abs(row.netPnl - row.pricePnl - row.distributionPnl + row.totalFees) <= MoneyTolerance
  }

  predicate MoneyValid(row: Constituent, k: int)
    requires k > 0
  {
    MoneyChecks(row, k, SumTo(|row.accruals|, SignedAmounts(row.accruals)))
  }

  /** The validator's pass over one row: basis, accruals with running totals, then the money equations. */
  method ValidateConstituent(row: Constituent, k: int) returns (valid: bool)
    requires k > 0
    ensures valid <==> BasisValid(row, k) && AccrualsValid(row) && MoneyValid(row, k)
  {
    if !BasisValid(row, k) {
      return false;
    }
    var total, signedTotal := 0.0, 0.0;
    for i := 0 to |row.accruals|
      invariant forall j :: 0 <= j < i ==> AccrualValid(row, row.accruals[j])
      invariant total == SumTo(i, WrittenAmounts(row.accruals))
      invariant signedTotal == SumTo(i, SignedAmounts(row.accruals))
    {
      if !AccrualValid(row, row.accruals[i]) {
        return false;
      }
      total := total + row.accruals[i].amount;
      signedTotal := signedTotal + row.accruals[i].signed;
    }
    if Abs(total - row.cashTotal) > MoneyTolerance {
      return false;
    }
    assert AccrualsValid(row);
    return MoneyChecks(row, k, signedTotal);
  }
}
