/** One holding path and its corporate actions: what the cash-return reconstructions read and what they report. */
module CashPaths {
  import opened Optional
  import opened Ordering
  import opened TextOrder
  import opened Documents
  import opened Grouping
  import opened Rounding

  datatype Action = Action(
    day: int, ticker: string, kind: string, name: string, value: Value,
    contraTicker: Option<string>, contraName: Option<string>)

  /** A dict from days to prices, with its keys in insertion order. */
  datatype Series = Series(days: seq<int>, at: map<int, real>)

  ghost predicate SeriesHolds(s: Series) {
    (forall d :: d in s.days <==> d in s.at) && forall d | d in s.at :: s.at[d] > 0.0
  }

  /** A terminal settlement; a malformed date is nothing. */
  datatype Settlement = Settlement(
    ticker: string, permaticker: int, lastPriceDay: Option<int>, day: Option<int>, cash: Value)

  datatype Lifecycle = Lifecycle(validated: bool, isDelisted: string, permaticker: int, finalDay: Option<int>)

  datatype Path = Path(
    ticker: string, entry: int, exit: int, close: Series, adjusted: Series, actions: seq<Action>,
    lifecycle: Lifecycle, currency: string, settlements: seq<Settlement>, absolute: real, relative: real)

  /** One dividend paid to the holder, with the evidence of its amount. */
  datatype Cash = Cash(action: Action, amount: real, previous: int, implied: real, error: real, allowed: real)

  datatype Reason =
    | LifecycleUnresolved | CurrencyUnresolved | ActionTermsUnresolved(kind: string)
    | DividendDateUnpriced | NoPriorPrices | AmountMismatch
    | SettlementMissing | CashNotReceived | ExitUnpriced

  datatype Fault =
    | BadArguments | NotUsd | EntryUnpriced | BadDelistingStatus | BadPermaticker | BadFinalDay
    | BadDividend | BadSettlementDate | BadTerminalCash

  datatype Result =
    | Resolved(entryPrice: real, exitPrice: Option<real>, distributions: seq<Cash>, cashTotal: real,
               settlement: Option<(int, int, int)>, terminalValue: real, grossReturn: real,
               diagnostic: Option<real>, ignored: seq<Action>)
    | Unresolved(reason: Reason, entryPrice: real, exitPrice: Option<real>, diagnostic: Option<real>,
                 distributions: seq<Cash>, ignored: seq<Action>)
    | Raised(fault: Fault)

  // ----- kinds of action -----

  predicate IsIgnored(kind: string) { kind == "acquisitionof" }

  predicate IsTerminal(kind: string) {
    kind in {"acquisitionby", "bankruptcyliquidation", "delisted", "mergerfrom", "mergerto",
             "regulatorydelisting", "voluntarydelisting"}
  }

  predicate IsDividend(kind: string) { kind == "dividend" }

  /** Neither ignored, nor terminal, nor an ordinary dividend: the terms are not understood. */
  predicate IsUnresolved(kind: string) { !IsIgnored(kind) && !IsTerminal(kind) && !IsDividend(kind) }

  /** A dividend amount, if the value is a positive finite number. */
  function Amount(a: Action): Option<real> {
    match Number(a.value) case Some(x) => if x > 0.0 then Some(x) else None case None => None
  }

  function DayOf(): Action -> int { (a: Action) => a.day }

  // ----- the held actions -----

  function OrEmpty(t: Option<string>): string { match t case Some(s) => s case None => "" }

  /** Order of the key (date, action, name, contra ticker, contra name). */
  predicate ActionLe(a: Action, b: Action) {
    a.day < b.day || (a.day == b.day && TextsLe(KeyTexts(a), KeyTexts(b)))
  }

  function KeyTexts(a: Action): seq<string> { [a.kind, a.name, OrEmpty(a.contraTicker), OrEmpty(a.contraName)] }

  predicate TextsLe(a: seq<string>, b: seq<string>) {
    a == [] || (b != [] && if a[0] == b[0] then TextsLe(a[1..], b[1..]) else TextLe(a[0], b[0]))
  }

  predicate IsHeld(p: Path, a: Action) { a.ticker == p.ticker && p.entry < a.day <= p.exit }

  function HeldBy(p: Path): Action -> bool { (a: Action) => IsHeld(p, a) }

  /** The actions of the holding interval, in canonical order. */
  function Held(p: Path): seq<Action> { Sort(Filter(p.actions, HeldBy(p)), ActionLe) }

  method SelectHeld(p: Path) returns (held: seq<Action>)
    ensures held == Held(p)
  {
    held := [];
    for n := 0 to |p.actions|
      invariant held == Filter(p.actions[..n], HeldBy(p))
    {
      assert p.actions[..n + 1][..n] == p.actions[..n];
      if p.actions[n].ticker == p.ticker && p.entry < p.actions[n].day <= p.exit { held := held + [p.actions[n]]; }
    }
    assert p.actions[..|p.actions|] == p.actions;
    held := Sort(held, ActionLe);
  }

  function KindIgnored(): Action -> bool { (a: Action) => IsIgnored(a.kind) }

  function KindTerminal(): Action -> bool { (a: Action) => IsTerminal(a.kind) }

  function KindDividend(): Action -> bool { (a: Action) => IsDividend(a.kind) }

  function Ignored(held: seq<Action>): seq<Action> { Filter(held, KindIgnored()) }

  function Terminals(held: seq<Action>): seq<Action> { Filter(held, KindTerminal()) }

  function Dividends(held: seq<Action>): seq<Action> { Filter(held, KindDividend()) }

  // ----- the price-adjustment check -----

  function PriorDays(days: seq<int>, adjusted: Series, day: int): seq<int> {
    Filter(days, PricedBefore(adjusted, day))
  }

  function PricedBefore(adjusted: Series, day: int): int -> bool { (d: int) => d in adjusted.at && d < day }

  datatype Verdict = Fails(reason: Reason) | Passes(previous: int, implied: real, error: real, allowed: real)

  /** The cash that explains how the adjusted price moved while the close moved as it did. */
  function ImpliedBy(closeBefore: real, adjustedBefore: real, close: real, adjusted: real): real
    requires adjustedBefore != 0.0
  {
    closeBefore * adjusted / adjustedBefore - close
  }

  /** The dividend the adjusted prices imply between two priced days. */
  function Implied(p: Path, previous: int, day: int): real
    requires previous in p.close.at && day in p.close.at && previous in p.adjusted.at && day in p.adjusted.at
    requires p.adjusted.at[previous] != 0.0
  {
    ImpliedBy(p.close.at[previous], p.adjusted.at[previous], p.close.at[day], p.adjusted.at[day])
  }

  function Allowance(p: Path, implied: real, total: real): real {
    AllowedError(p.absolute, p.relative, implied, total)
  }

  /** The total paid on an ex-date against the price adjustment from the day before it that is priced in both series. */
  function Check(p: Path, day: int, total: real, previous: int): Verdict
    requires previous in p.close.at && day in p.close.at && previous in p.adjusted.at && day in p.adjusted.at
    requires p.adjusted.at[previous] != 0.0
  {
    var implied := Implied(p, previous, day);
    if Abs(implied - total) > Allowance(p, implied, total) then Fails(AmountMismatch)
    else Passes(previous, implied, Abs(implied - total), Allowance(p, implied, total))
  }

  // ----- sums -----

  function SumOf(amounts: seq<real>): real {
    if amounts == [] then 0.0 else SumOf(amounts[..|amounts| - 1]) + amounts[|amounts| - 1]
  }

  function CashTotal(distributions: seq<Cash>): real {
    if distributions == [] then 0.0
    else CashTotal(distributions[..|distributions| - 1]) + distributions[|distributions| - 1].amount
  }

  function Amounts(actions: seq<Action>): (r: seq<real>)
    requires AllPaid(actions)
    ensures |r| == |actions| && forall i | 0 <= i < |actions| :: r[i] == Amount(actions[i]).value
  {
    seq(|actions|, i requires 0 <= i < |actions| => Amount(actions[i]).value)
  }

  /** Every amount is a positive finite number. */
  predicate AllPaid(actions: seq<Action>) { forall i | 0 <= i < |actions| :: Amount(actions[i]).Some? }

  // ----- maxima -----

  /** The last of the sorted days is the greatest, so both ways of finding it agree. */
  lemma LastSortedIsGreatest(s: seq<int>)
    requires s != []
    ensures |Sort(s, IntLe)| == |s|
    ensures Sort(s, IntLe)[|s| - 1] == Greatest(s)
  {
    var t := Sort(s, IntLe);
    assert TotalOrder(IntLe);
    SortSorts(s, IntLe);
    SortMembers(s, IntLe, Greatest(s));
    SortMembers(s, IntLe, t[|s| - 1]);
    var i :| 0 <= i < |t| && t[i] == Greatest(s);
    assert IntLe(t[i], t[|t| - 1]) || i == |t| - 1;
  }
}
