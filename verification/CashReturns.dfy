/** The cash return of one holding path, reconstructed twice: by the economic-return module and by the reference. */
module CashReturns {
  import opened Optional
  import opened Ordering
  import opened Documents
  import opened Grouping
  import opened CashPaths

  // ----- what the two share -----

  function Diagnostic(p: Path): Option<real>
    requires p.entry in p.adjusted.at ==> p.adjusted.at[p.entry] != 0.0
  {
    if p.entry in p.adjusted.at && p.exit in p.adjusted.at
    then Some(p.adjusted.at[p.exit] / p.adjusted.at[p.entry] - 1.0) else None
  }

  function ExitPrice(p: Path): Option<real> { if p.exit in p.close.at then Some(p.close.at[p.exit]) else None }

  /** Both price series are dicts of positive prices, and the entry is priced. */
  ghost predicate Priced(p: Path) { SeriesHolds(p.close) && SeriesHolds(p.adjusted) && p.entry in p.close.at }

  function Unsettled(p: Path, reason: Reason, exitPrice: Option<real>, distributions: seq<Cash>,
                     ignored: seq<Action>): Result
    requires Priced(p)
  {
    Unresolved(reason, p.close.at[p.entry], exitPrice, Diagnostic(p), distributions, ignored)
  }

  /** The first kind in the interval whose terms are not understood. */
  function StopAt(held: seq<Action>): nat
    ensures StopAt(held) <= |held|
    ensures forall i | 0 <= i < StopAt(held) :: !IsUnresolved(held[i].kind)
    ensures StopAt(held) < |held| ==> IsUnresolved(held[StopAt(held)].kind)
  {
    if held == [] then 0
    else
      var front := StopAt(held[..|held| - 1]);
      if front < |held| - 1 then front
      else if IsUnresolved(held[|held| - 1].kind) then |held| - 1 else |held|
  }

  lemma {:induction false} StopFound(held: seq<Action>, n: nat)
    requires n < |held| && IsUnresolved(held[n].kind) && forall i | 0 <= i < n :: !IsUnresolved(held[i].kind)
    ensures StopAt(held) == n
  {}

  /** The day's prices and the last earlier day priced in both series. */
  function Evidence(p: Path, day: int): Option<Reason> {
    if day !in p.close.at || day !in p.adjusted.at then Some(DividendDateUnpriced)
    else if PriorDays(p.close.days, p.adjusted, day) == [] then Some(NoPriorPrices) else None
  }

  function Previous(p: Path, day: int): (d: int)
    requires Priced(p) && Evidence(p, day).None?
    ensures d in p.close.at && d in p.adjusted.at && d < day && p.adjusted.at[d] != 0.0
  {
    var d := Greatest(PriorDays(p.close.days, p.adjusted, day));
    FilterKeeps(p.close.days, PricedBefore(p.adjusted, day), d);
    d
  }

  function DayVerdict(p: Path, day: int, total: real): Verdict
    requires Priced(p)
  {
    match Evidence(p, day)
    case Some(reason) => Fails(reason)
    case None => Check(p, day, total, Previous(p, day))
  }

  function Entries(actions: seq<Action>, v: Verdict): (r: seq<Cash>)
    requires v.Passes? && AllPaid(actions)
    ensures |r| == |actions|
  {
    seq(|actions|, i requires 0 <= i < |actions| =>
      Cash(actions[i], Amount(actions[i]).value, v.previous, v.implied, v.error, v.allowed))
  }

  /** How far the check of the ex-dates has come. */
  datatype Progress = Going(paid: seq<Cash>) | Stopped(reason: Reason, before: seq<Cash>) | Refused

  function CheckOne(p: Path, actions: seq<Action>, day: int, paid: seq<Cash>): Progress
    requires Priced(p)
  {
    if !AllPaid(actions) then Refused
    else
      var v := DayVerdict(p, day, SumOf(Amounts(actions)));
      if v.Fails? then Stopped(v.reason, paid) else Going(paid + Entries(actions, v))
  }

  /** The first `n` ex-dates checked, in order. */
  function CheckDays(p: Path, dividends: seq<Action>, days: seq<int>, n: nat): Progress
    requires Priced(p) && n <= |days|
  {
    if n == 0 then Going([])
    else match CheckDays(p, dividends, days, n - 1)
      case Going(paid) => CheckOne(p, Members(dividends, DayOf(), days[n - 1]), days[n - 1], paid)
      case other => other
  }

  lemma CheckNext(p: Path, dividends: seq<Action>, days: seq<int>, n: nat)
    requires Priced(p) && n < |days|
    ensures var before := CheckDays(p, dividends, days, n);
      CheckDays(p, dividends, days, n + 1) ==
        if before.Going? then CheckOne(p, Members(dividends, DayOf(), days[n]), days[n], before.paid) else before
  {}

  function ExDates(dividends: seq<Action>): seq<int> { Sort(KeyList(dividends, DayOf()), IntLe) }

  /** Where the check of all ex-dates ends. */
  function AllChecked(p: Path, held: seq<Action>): Progress
    requires Priced(p)
  {
    var days := ExDates(Dividends(held));
    CheckDays(p, Dividends(held), days, |days|)
  }

  /** The settlement belongs to this path's security and its last day. */
  predicate Matches(p: Path, s: Settlement, finalDay: int) {
    s.ticker == p.ticker && s.permaticker == p.lifecycle.permaticker && s.lastPriceDay == Some(finalDay)
  }

  function Matching(p: Path, finalDay: int): Settlement -> bool { (s: Settlement) => Matches(p, s, finalDay) }

  predicate NeedsSettlement(p: Path, held: seq<Action>, finalDay: int) {
    (p.lifecycle.isDelisted == "Y" && finalDay < p.exit) || Terminals(held) != []
  }

  function Value(p: Path, exitPrice: Option<real>, base: real, settlement: Option<(int, int, int)>,
                 paid: seq<Cash>, ignored: seq<Action>): Result
    requires Priced(p)
  {
    var value := base + CashTotal(paid);
    Resolved(p.close.at[p.entry], exitPrice, paid, CashTotal(paid), settlement, value,
             value / p.close.at[p.entry] - 1.0, Diagnostic(p), ignored)
  }

  /** The end of a path whose matching settlements are known. */
  function Settled(p: Path, matches: seq<Settlement>, finalDay: int, paid: seq<Cash>, ignored: seq<Action>): Result
    requires Priced(p)
  {
    if |matches| != 1 then Unsettled(p, SettlementMissing, None, paid, ignored)
    else match matches[0].day
      case None => Raised(BadSettlementDate)
      case Some(day) =>
        if day > p.exit then Unsettled(p, CashNotReceived, None, paid, ignored)
        else match Number(matches[0].cash)
          case Some(cash) =>
            if cash <= 0.0 then Raised(BadTerminalCash)
            else Value(p, None, cash, Some((p.lifecycle.permaticker, finalDay, day)), paid, ignored)
          case None => Raised(BadTerminalCash)
  }

  function AtExit(p: Path, paid: seq<Cash>, ignored: seq<Action>): Result
    requires Priced(p)
  {
    match ExitPrice(p)
    case None => Unsettled(p, ExitUnpriced, None, paid, ignored)
    case Some(price) => Value(p, Some(price), price, None, paid, ignored)
  }

  // ----- the first implementation -----

  /** The settlement scan refuses a matching row whose last price date is malformed. */
  predicate ScanRefuses(p: Path) {
    exists i | 0 <= i < |p.settlements| :: Suspect(p, p.settlements[i])
  }

  predicate Suspect(p: Path, s: Settlement) {
    s.ticker == p.ticker && s.permaticker == p.lifecycle.permaticker && s.lastPriceDay.None?
  }

  function PrimaryEnd(p: Path, held: seq<Action>, finalDay: int, paid: seq<Cash>): Result
    requires Priced(p)
  {
    if !NeedsSettlement(p, held, finalDay) then AtExit(p, paid, Ignored(held))
    else if ScanRefuses(p) then Raised(BadSettlementDate)
    else Settled(p, Filter(p.settlements, Matching(p, finalDay)), finalDay, paid, Ignored(held))
  }

  function PrimaryPaid(p: Path, held: seq<Action>, finalDay: int): Result
    requires Priced(p)
  {
    if StopAt(held) < |held| then
      Unsettled(p, ActionTermsUnresolved(held[StopAt(held)].kind), ExitPrice(p), [], Ignored(held[..StopAt(held)]))
    else match AllChecked(p, held)
      case Refused => Raised(BadDividend)
      case Stopped(reason, paid) => Unsettled(p, reason, ExitPrice(p), paid, Ignored(held))
      case Going(paid) => PrimaryEnd(p, held, finalDay, paid)
  }

  ghost predicate WellPriced(p: Path) { SeriesHolds(p.close) && SeriesHolds(p.adjusted) }

  /** `reconstruct_cash_return`, after its price maps have been read. */
  function Primary(p: Path): Result
    requires WellPriced(p)
  {
    if p.entry >= p.exit || p.absolute < 0.0 || p.relative < 0.0 then Raised(BadArguments)
    else if p.currency != "USD" then Raised(NotUsd)
    else if p.entry !in p.close.at then Raised(EntryUnpriced)
    else if !p.lifecycle.validated then Unsettled(p, LifecycleUnresolved, ExitPrice(p), [], [])
    else if p.lifecycle.isDelisted !in {"N", "Y"} then Raised(BadDelistingStatus)
    else if p.lifecycle.permaticker <= 0 then Raised(BadPermaticker)
    else match p.lifecycle.finalDay
      case None => Raised(BadFinalDay)
      case Some(finalDay) => PrimaryPaid(p, Held(p), finalDay)
  }

  // ----- the second implementation -----

  /** Some dividend before the first action it cannot read has no positive amount. */
  predicate EarlyRefusal(held: seq<Action>) {
    exists i | 0 <= i < StopAt(held) :: Unpaid(held[i])
  }

  predicate Unpaid(a: Action) { IsDividend(a.kind) && Amount(a).None? }

  function ReferenceEnd(p: Path, held: seq<Action>, finalDay: int, paid: seq<Cash>): Result
    requires Priced(p)
  {
    if !NeedsSettlement(p, held, finalDay) then AtExit(p, paid, Ignored(held))
    else Settled(p, Filter(p.settlements, Matching(p, finalDay)), finalDay, paid, Ignored(held))
  }

  function ReferencePaid(p: Path, held: seq<Action>, finalDay: int): Result
    requires Priced(p)
  {
    if EarlyRefusal(held) then Raised(BadDividend)
    else if StopAt(held) < |held| then
      Unsettled(p, ActionTermsUnresolved(held[StopAt(held)].kind), ExitPrice(p), [], Ignored(held[..StopAt(held)]))
    else match AllChecked(p, held)
      case Refused => Raised(BadDividend)
      case Stopped(reason, paid) => Unsettled(p, reason, ExitPrice(p), paid, Ignored(held))
      case Going(paid) => ReferenceEnd(p, held, finalDay, paid)
  }

  /** `_reference_cash_return`. */
  function Reference(p: Path): Result
    requires WellPriced(p)
  {
    if p.entry !in p.close.at then Raised(EntryUnpriced)
    else if !p.lifecycle.validated then Unsettled(p, LifecycleUnresolved, ExitPrice(p), [], [])
    else if p.currency != "USD" then Unsettled(p, CurrencyUnresolved, ExitPrice(p), [], [])
    else if p.lifecycle.permaticker <= 0 then Raised(BadPermaticker)
    else match p.lifecycle.finalDay
      case None => Raised(BadFinalDay)
      case Some(finalDay) => ReferencePaid(p, Held(p), finalDay)
  }

  // ----- the twins -----

  /** For dollar paths with a validated lifecycle: whenever both return, they return the same. */
  lemma TwinsAgree(p: Path)
    requires WellPriced(p) && p.currency == "USD" && p.lifecycle.validated
    requires !Primary(p).Raised? && !Reference(p).Raised?
    ensures Primary(p) == Reference(p)
  {}

  /** Days that were all checked were all paid. */
  lemma {:induction false} CheckedArePaid(p: Path, dividends: seq<Action>, days: seq<int>, n: nat, i: nat)
    requires Priced(p) && i < n <= |days| && CheckDays(p, dividends, days, n).Going?
    ensures AllPaid(Members(dividends, DayOf(), days[i]))
  {
    if i < n - 1 { CheckedArePaid(p, dividends, days, n - 1, i); }
  }

  lemma GroupIsPaid(dividends: seq<Action>, day: int)
    requires AllPaid(dividends)
    ensures AllPaid(Members(dividends, DayOf(), day))
  {
    var group := Members(dividends, DayOf(), day);
    forall i | 0 <= i < |group| ensures Amount(group[i]).Some? { MembersHaveKey(dividends, DayOf(), day, i); }
  }

  lemma EveryDayIsListed(dividends: seq<Action>, a: Action)
    requires a in dividends
    ensures a in Members(dividends, DayOf(), a.day) && a.day in ExDates(dividends)
  {
    RowIsMember(dividends, DayOf(), a);
    assert TotalOrder(IntLe);
    SortMembers(KeyList(dividends, DayOf()), IntLe, a.day);
  }

  /** If every ex-date passed, every dividend has an amount. */
  lemma AllCheckedMeansPaid(p: Path, held: seq<Action>, a: Action)
    requires Priced(p) && AllChecked(p, held).Going? && a in held && IsDividend(a.kind)
    ensures Amount(a).Some?
  {
    var dividends, days := Dividends(held), ExDates(Dividends(held));
    FilterKeeps(held, KindDividend(), a);
    EveryDayIsListed(dividends, a);
    var i :| 0 <= i < |days| && days[i] == a.day;
    CheckedArePaid(p, dividends, days, |days|, i);
    var j :| 0 <= j < |Members(dividends, DayOf(), a.day)| && Members(dividends, DayOf(), a.day)[j] == a;
  }
}
