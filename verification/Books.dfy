/** The cohort book: what both daily loops replay, stated in closed form per name and session.
    A name buys `quantity` at the entry close, is marked at every later close, accrues its
    distributions as a receivable, and is liquidated at the exit close. */
module Books {
  import opened Rounding
  import opened Optional
  import opened Sums

  datatype Leg = Long | Short

  function Sign(leg: Leg): real { if leg == Long then 1.0 else -1.0 }

  /** One dated cash amount and the canonical text of its action key. */
  datatype Accrual = Accrual(date: int, amount: real, key: string)

  type Prices = map<(string, int), real>

  datatype Item = Item(ticker: string, mTicker: string, leg: Leg, target: real, quantity: real,
                       entryFee: real, exitFee: real, accruals: seq<Accrual>)

  /** The position of a day among the sessions. */
  function SessionIndex(sessions: seq<int>, day: int): (r: Option<nat>)
    ensures r.Some? ==> r.value < |sessions| && sessions[r.value] == day
    ensures r.None? <==> day !in sessions
  {
    if sessions == [] then None
    else if sessions[|sessions| - 1] == day then Some(|sessions| - 1)
    else
      assert sessions == sessions[..|sessions| - 1] + [sessions[|sessions| - 1]];
      SessionIndex(sessions[..|sessions| - 1], day)
  }

  predicate PositivePrices(prices: Prices) {
    forall key :: key in prices ==> prices[key] > 0.0
  }

  datatype NameState = NameState(
    mTicker: string, close: real, target: real, order: real, position: real, cashFlow: real,
    accrual: real, receivable: real, marketValue: real, pricePnl: real, fee: real, netPnl: real,
    applied: seq<string>)

  datatype CohortState = CohortState(
    cash: real, receivable: real, marketValue: real, grossLong: real, grossShort: real, nav: real,
    checkpointFees: Option<real>, cumulativeFees: real, dailyPnl: real, cumulativePnl: real, openCount: int)

  datatype Session = Session(day: int, cohort: CohortState, names: seq<NameState>)

  function FixName(s: NameState): NameState {
    NameState(s.mTicker, Money(s.close), Money(s.target), Quantity(s.order), Quantity(s.position),
              Money(s.cashFlow), Money(s.accrual), Money(s.receivable), Money(s.marketValue),
              Money(s.pricePnl), Money(s.fee), Money(s.netPnl), s.applied)
  }

  function FixOption(x: Option<real>): Option<real> { if x.Some? then Some(Money(x.value)) else None }

  function FixCohort(s: CohortState): CohortState {
    CohortState(Money(s.cash), Money(s.receivable), Money(s.marketValue), Money(s.grossLong),
                Money(s.grossShort), Money(s.nav), FixOption(s.checkpointFees), Money(s.cumulativeFees),
                Money(s.dailyPnl), Money(s.cumulativePnl), s.openCount)
  }

  /** The decimal strings a session is written as. */
  function Fix(s: Session): Session {
    Session(s.day, FixCohort(s.cohort), seq(|s.names|, i requires 0 <= i < |s.names| => FixName(s.names[i])))
  }

  function DatedTotal(accruals: seq<Accrual>, day: int): real {
    if accruals == [] then 0.0
    else DatedTotal(accruals[..|accruals| - 1], day)
         + (if accruals[|accruals| - 1].date == day then accruals[|accruals| - 1].amount else 0.0)
  }

  function DatedKeys(accruals: seq<Accrual>, day: int): seq<string> {
    if accruals == [] then []
    else DatedKeys(accruals[..|accruals| - 1], day)
         + (if accruals[|accruals| - 1].date == day then [accruals[|accruals| - 1].key] else [])
  }

  /** Names, the session days from entry to exit, and the closing prices. */
  datatype Book = Book(items: seq<Item>, path: seq<int>, prices: Prices) {

    function Last(): int { |path| - 1 }

    predicate Priced(i: int, t: int) {
      0 <= i < |items| && 0 <= t < |path| && (items[i].ticker, path[t]) in prices
    }

    predicate AllPriced() {
      forall i, t :: 0 <= i < |items| && 0 <= t < |path| ==> Priced(i, t)
    }

    /** No two names of the cohort share a ticker. */
    predicate DistinctTickers() {
      forall i, j :: 0 <= i < j < |items| ==> items[i].ticker != items[j].ticker
    }

    predicate DistinctNames() {
      forall i, j :: 0 <= i < j < |items| ==> items[i].mTicker != items[j].mTicker
    }

    function Close(i: int, t: int): real {
      if Priced(i, t) then prices[(items[i].ticker, path[t])] else 0.0
    }

    function Shares(i: int): real { if 0 <= i < |items| then items[i].quantity else 0.0 }

    function Order(i: int, t: int): real {
      if t == 0 then Shares(i) else if t == Last() then -Shares(i) else 0.0
    }

    function Position(i: int, t: int): real { if t == Last() then 0.0 else Shares(i) }

    function FeeOn(i: int, t: int): real {
      if !(0 <= i < |items|) then 0.0
      else if t == 0 then items[i].entryFee else if t == Last() then items[i].exitFee else 0.0
    }

    function AccruedOn(i: int, t: int): real {
      if 0 <= i < |items| && 0 <= t < |path| then DatedTotal(items[i].accruals, path[t]) else 0.0
    }

    /** Everything accrued on the name from session `from` through session t. */
    function Accrued(i: int, from: int, t: int): real
      decreases t - from
    {
      if t < from then 0.0 else Accrued(i, from, t - 1) + AccruedOn(i, t)
    }

    function MarketValue(i: int, t: int): real { Position(i, t) * Close(i, t) }

    function PriceMove(i: int, t: int): real {
      if t == 0 then 0.0 else Shares(i) * (Close(i, t) - Close(i, t - 1))
    }

    /** Fees charged to the name through session t. */
    function FeesTo(i: int, t: int): real {
      if !(0 <= i < |items|) then 0.0
      else items[i].entryFee + (if 0 < t == Last() then items[i].exitFee else 0.0)
    }

    /** Cash the name has put into the book through session t. */
    function NameCash(i: int, t: int): real {
      -(Shares(i) * Close(i, 0)) + (if 0 < t == Last() then Shares(i) * Close(i, t) else 0.0) - FeesTo(i, t)
    }

    // The same quantities as summands.
    function Cashes(t: int): int -> real { i => NameCash(i, t) }
    function Receivables(from: int, t: int): int -> real { i => Accrued(i, from, t) }
    function Markets(t: int): int -> real { i => MarketValue(i, t) }
    function Fees(t: int): int -> real { i => FeesTo(i, t) }
    function CheckpointFees(t: int): int -> real { i => FeeOn(i, t) }
    function LongBySign(t: int): int -> real { i => if MarketValue(i, t) >= 0.0 then MarketValue(i, t) else 0.0 }
    function ShortBySign(t: int): int -> real { i => if MarketValue(i, t) >= 0.0 then 0.0 else -MarketValue(i, t) }
    function LongByLeg(t: int): int -> real {
      i => if 0 <= i < |items| && items[i].leg == Long then MarketValue(i, t) else 0.0
    }
    function ShortByLeg(t: int): int -> real {
      i => if 0 <= i < |items| && items[i].leg == Short then MarketValue(i, t) else 0.0
    }

    function Cash(t: int): real { 1.0 + SumTo(|items|, Cashes(t)) }

    function Receivable(from: int, t: int): real { SumTo(|items|, Receivables(from, t)) }

    function Market(t: int): real { SumTo(|items|, Markets(t)) }

    function Nav(from: int, t: int): real {
      if t < 0 then 1.0 else Cash(t) + Receivable(from, t) + Market(t)
    }

    /** A name's row at session t, given how its price P&L was obtained. */
    function NameAt(i: nat, t: nat, from: int, pnl: real): NameState
      requires i < |items| && t < |path|
    {
      var accrual := if t < from then 0.0 else AccruedOn(i, t);
      NameState(items[i].mTicker, Close(i, t), if t == Last() then 0.0 else items[i].target,
                Order(i, t), Position(i, t), -(Order(i, t) * Close(i, t)), accrual, Accrued(i, from, t),
                MarketValue(i, t), pnl, FeeOn(i, t), pnl + accrual - FeeOn(i, t),
                if t < from then [] else DatedKeys(items[i].accruals, path[t]))
    }

    /** The cohort row at session t, given how the gross legs, fees and open positions were counted. */
    function CohortAt(t: nat, from: int, long: real, short: real, fees: Option<real>, open: int): CohortState {
      CohortState(Cash(t), Receivable(from, t), Market(t), long, short, Nav(from, t), fees, SumTo(|items|, Fees(t)),
                  Nav(from, t) - Nav(from, t - 1), Nav(from, t) - 1.0, open)
    }
  }
}
