/** The two reconstructions as the loops they are written as. */
module CashLoops {
  import opened Optional
  import opened Ordering
  import opened Grouping
  import opened CashPaths
  import opened CashReturns

  /** The held actions sorted by kind, the dividends filed by ex-date. */
  datatype Sifted = Sifted(ignored: seq<Action>, terminals: seq<Action>, groups: map<int, seq<Action>>, order: seq<int>)

  ghost predicate Sifts(s: Sifted, held: seq<Action>) {
    && s.ignored == Ignored(held) && s.terminals == Terminals(held)
    && s.order == KeyList(Dividends(held), DayOf()) && Files(s.groups, Dividends(held), DayOf())
  }

  function SiftOne(s: Sifted, a: Action): Sifted {
    if IsIgnored(a.kind) then s.(ignored := s.ignored + [a])
    else if IsTerminal(a.kind) then s.(terminals := s.terminals + [a])
    else s.(groups := Placed(s.groups, a.day, a), order := if a.day in s.order then s.order else s.order + [a.day])
  }

  lemma SiftStep(s: Sifted, held: seq<Action>, n: nat)
    requires n < |held| && Sifts(s, held[..n]) && !IsUnresolved(held[n].kind)
    ensures Sifts(SiftOne(s, held[n]), held[..n + 1])
  {
    var a, dividends := held[n], Dividends(held[..n]);
    FilterNext(held, n, KindIgnored());
    FilterNext(held, n, KindTerminal());
    FilterNext(held, n, KindDividend());
    KindsAreApart(a.kind);
    assert DayOf()(a) == a.day;
    if IsDividend(a.kind) {
      assert Dividends(held[..n + 1]) == dividends + [a];
      PlacedFiles(s.groups, dividends, DayOf(), a);
      KeyListNext(dividends, DayOf(), a);
    } else {
      assert Dividends(held[..n + 1]) == dividends;
    }
  }

  lemma KindsAreApart(kind: string)
    ensures !(IsIgnored(kind) && IsTerminal(kind)) && !(IsIgnored(kind) && IsDividend(kind))
        && !(IsTerminal(kind) && IsDividend(kind))
  {}

  /** The first loop of `reconstruct_cash_return`. */
  method Sift(held: seq<Action>) returns (s: Sifted, stop: Option<string>)
    ensures stop.None? <==> StopAt(held) == |held|
    ensures stop.None? ==> Sifts(s, held)
    ensures stop.Some? ==> stop.value == held[StopAt(held)].kind && s.ignored == Ignored(held[..StopAt(held)])
  {
    s := Sifted([], [], map[], []);
    for n := 0 to |held|
      invariant Sifts(s, held[..n]) && StopAt(held) >= n
    {
      var kind := held[n].kind;
      if !IsIgnored(kind) && !IsTerminal(kind) && !IsDividend(kind) {
        StopFound(held, n);
        return s, Some(kind);
      }
      SiftStep(s, held, n);
      s := SiftOne(s, held[n]);
      StopLater(held, n);
    }
    assert held[..|held|] == held;
    stop := None;
  }

  lemma StopLater(held: seq<Action>, n: nat)
    requires n < |held| && StopAt(held) >= n && !IsUnresolved(held[n].kind)
    ensures StopAt(held) >= n + 1
  {}

  /** The amounts of one ex-date, or a refusal at the first that is not a positive number. */
  method ReadAmounts(actions: seq<Action>) returns (amounts: Option<seq<real>>)
    ensures amounts == if AllPaid(actions) then Some(Amounts(actions)) else None
  {
    var read: seq<real> := [];
    for n := 0 to |actions|
      invariant |read| == n && forall i | 0 <= i < n :: Amount(actions[i]) == Some(read[i])
    {
      var amount := Amount(actions[n]);
      if amount.None? { return None; }
      read := read + [amount.value];
    }
    assert read == Amounts(actions);
    return Some(read);
  }

  method Sum(amounts: seq<real>) returns (total: real)
    ensures total == SumOf(amounts)
  {
    total := 0.0;
    for n := 0 to |amounts|
      invariant total == SumOf(amounts[..n])
    {
      assert amounts[..n + 1][..n] == amounts[..n];
      total := total + amounts[n];
    }
    assert amounts[..|amounts|] == amounts;
  }

  method DaysPricedBefore(p: Path, day: int) returns (prior: seq<int>)
    ensures prior == PriorDays(p.close.days, p.adjusted, day)
  {
    prior := [];
    for n := 0 to |p.close.days|
      invariant prior == PriorDays(p.close.days[..n], p.adjusted, day)
    {
      FilterNext(p.close.days, n, PricedBefore(p.adjusted, day));
      var d := p.close.days[n];
      if d in p.adjusted.at && d < day { prior := prior + [d]; }
    }
    assert p.close.days[..|p.close.days|] == p.close.days;
  }

  /** One ex-date in the first implementation: amounts, price evidence, check, entries. */
  method CheckDate(p: Path, actions: seq<Action>, day: int, paid: seq<Cash>) returns (r: Progress)
    requires Priced(p)
    ensures r == CheckOne(p, actions, day, paid)
  {
    var amounts := ReadAmounts(actions);
    if amounts.None? { return Refused; }
    var total := Sum(amounts.value);
    if day !in p.close.at || day !in p.adjusted.at { return Stopped(DividendDateUnpriced, paid); }
    var prior := DaysPricedBefore(p, day);
    if prior == [] { return Stopped(NoPriorPrices, paid); }
    LastSortedIsGreatest(prior);
    var previous := Sort(prior, IntLe)[|prior| - 1];
    assert previous == Previous(p, day);
    var v := Check(p, day, total, previous);
    if v.Fails? { return Stopped(v.reason, paid); }
    return Going(paid + Entries(actions, v));
  }

  /** The second loop of `reconstruct_cash_return`. */
  method CheckDates(p: Path, ghost held: seq<Action>, s: Sifted) returns (r: Progress)
    requires Priced(p) && Sifts(s, held)
    ensures r == AllChecked(p, held)
  {
    var days := Sort(s.order, IntLe);
    r := Going([]);
    for n := 0 to |days|
      invariant r == CheckDays(p, Dividends(held), days, n)
    {
      CheckNext(p, Dividends(held), days, n);
      if r.Going? { r := CheckDateOfDay(p, held, s, days, n, r.paid); }
    }
  }

  method CheckDateOfDay(p: Path, ghost held: seq<Action>, s: Sifted, days: seq<int>, n: nat, paid: seq<Cash>)
    returns (r: Progress)
    requires Priced(p) && Sifts(s, held) && days == Sort(s.order, IntLe) && n < |days|
    ensures r == CheckOne(p, Members(Dividends(held), DayOf(), days[n]), days[n], paid)
  {
    GroupOfDay(s, held, days, n);
    r := CheckDate(p, s.groups[days[n]], days[n], paid);
  }

  lemma GroupOfDay(s: Sifted, held: seq<Action>, days: seq<int>, n: nat)
    requires Sifts(s, held) && days == Sort(s.order, IntLe) && n < |days|
    ensures days[n] in s.groups && s.groups[days[n]] == Members(Dividends(held), DayOf(), days[n])
  {
    assert TotalOrder(IntLe);
    SortMembers(s.order, IntLe, days[n]);
    FiledRows(s.groups, Dividends(held), DayOf(), days[n]);
  }

  method FindSettlements(p: Path, finalDay: int) returns (matches: Option<seq<Settlement>>)
    ensures matches == if ScanRefuses(p) then None else Some(Filter(p.settlements, Matching(p, finalDay)))
  {
    var found: seq<Settlement> := [];
    for n := 0 to |p.settlements|
      invariant forall i | 0 <= i < n :: !Suspect(p, p.settlements[i])
      invariant found == Filter(p.settlements[..n], Matching(p, finalDay))
    {
      FilterNext(p.settlements, n, Matching(p, finalDay));
      var s := p.settlements[n];
      if s.ticker == p.ticker && s.permaticker == p.lifecycle.permaticker {
        if s.lastPriceDay.None? {
          assert Suspect(p, p.settlements[n]);
          return None;
        }
        if s.lastPriceDay.value == finalDay { found := found + [s]; }
      }
    }
    assert p.settlements[..|p.settlements|] == p.settlements;
    return Some(found);
  }

  /** `reconstruct_cash_return`. */
  method ReconstructCashReturn(p: Path) returns (r: Result)
    requires WellPriced(p)
    ensures r == Primary(p)
  {
    if p.entry >= p.exit || p.absolute < 0.0 || p.relative < 0.0 { return Raised(BadArguments); }
    if p.currency != "USD" { return Raised(NotUsd); }
    if p.entry !in p.close.at { return Raised(EntryUnpriced); }
    if !p.lifecycle.validated { return Unsettled(p, LifecycleUnresolved, ExitPrice(p), [], []); }
    if p.lifecycle.isDelisted !in {"N", "Y"} { return Raised(BadDelistingStatus); }
    if p.lifecycle.permaticker <= 0 { return Raised(BadPermaticker); }
    if p.lifecycle.finalDay.None? { return Raised(BadFinalDay); }
    var held := SelectHeld(p);
    r := PayHolder(p, held, p.lifecycle.finalDay.value);
  }

  method PayHolder(p: Path, held: seq<Action>, finalDay: int) returns (r: Result)
    requires Priced(p)
    ensures r == PrimaryPaid(p, held, finalDay)
  {
    var s, stop := Sift(held);
    if stop.Some? { return Unsettled(p, ActionTermsUnresolved(stop.value), ExitPrice(p), [], s.ignored); }
    var progress := CheckDates(p, held, s);
    match progress
    case Refused => return Raised(BadDividend);
    case Stopped(reason, paid) => return Unsettled(p, reason, ExitPrice(p), paid, s.ignored);
    case Going(paid) =>
      if (p.lifecycle.isDelisted == "Y" && finalDay < p.exit) || s.terminals != [] {
        var matches := FindSettlements(p, finalDay);
        if matches.None? { return Raised(BadSettlementDate); }
        return Settled(p, matches.value, finalDay, paid, s.ignored);
      }
      return AtExit(p, paid, s.ignored);
  }

  // ----- the reference -----

  /** The first loop of `_reference_cash_return`, which reads each amount as it sorts the actions. */
  method SiftPaid(held: seq<Action>) returns (s: Sifted, stop: Option<string>, refused: bool)
    ensures refused <==> EarlyRefusal(held)
    ensures !refused ==> (stop.None? <==> StopAt(held) == |held|)
    ensures !refused && stop.None? ==> Sifts(s, held) && AllPaid(Dividends(held))
    ensures !refused && stop.Some? ==>
        stop.value == held[StopAt(held)].kind && s.ignored == Ignored(held[..StopAt(held)])
  {
    s, refused := Sifted([], [], map[], []), false;
    for n := 0 to |held|
      invariant Sifts(s, held[..n]) && StopAt(held) >= n && !refused
      invariant forall i | 0 <= i < n :: !Unpaid(held[i])
    {
      var kind := held[n].kind;
      if !IsIgnored(kind) && !IsTerminal(kind) && !IsDividend(kind) {
        StopFound(held, n);
        return s, Some(kind), false;
      }
      StopLater(held, n);
      KindsAreApart(kind);
      if IsDividend(kind) && Amount(held[n]).None? {
        assert Unpaid(held[n]);
        return s, None, true;
      }
      SiftStep(s, held, n);
      s := SiftOne(s, held[n]);
    }
    assert held[..|held|] == held;
    stop := None;
    DividendsArePaid(held);
  }

  lemma DividendsArePaid(held: seq<Action>)
    requires forall i | 0 <= i < |held| :: !Unpaid(held[i])
    ensures AllPaid(Dividends(held))
  {
    var dividends := Dividends(held);
    forall i | 0 <= i < |dividends| ensures Amount(dividends[i]).Some? {
      FilterKeeps(held, KindDividend(), dividends[i]);
    }
  }

  method CheckPaidDate(p: Path, actions: seq<Action>, day: int, paid: seq<Cash>) returns (r: Progress)
    requires Priced(p) && AllPaid(actions)
    ensures r == CheckOne(p, actions, day, paid)
  {
    var total := Sum(Amounts(actions));
    if day !in p.close.at || day !in p.adjusted.at { return Stopped(DividendDateUnpriced, paid); }
    var prior := DaysPricedBefore(p, day);
    if prior == [] { return Stopped(NoPriorPrices, paid); }
    var previous := MaxOf(prior);
    assert previous == Previous(p, day);
    var v := Check(p, day, total, previous);
    if v.Fails? { return Stopped(v.reason, paid); }
    return Going(paid + Entries(actions, v));
  }

  method CheckPaidDates(p: Path, ghost held: seq<Action>, s: Sifted) returns (r: Progress)
    requires Priced(p) && Sifts(s, held) && AllPaid(Dividends(held))
    ensures r == AllChecked(p, held)
  {
    var days := Sort(s.order, IntLe);
    r := Going([]);
    for n := 0 to |days|
      invariant r == CheckDays(p, Dividends(held), days, n)
    {
      CheckNext(p, Dividends(held), days, n);
      if r.Going? { r := CheckPaidDateOfDay(p, held, s, days, n, r.paid); }
    }
  }

  method CheckPaidDateOfDay(p: Path, ghost held: seq<Action>, s: Sifted, days: seq<int>, n: nat, paid: seq<Cash>)
    returns (r: Progress)
    requires Priced(p) && Sifts(s, held) && days == Sort(s.order, IntLe) && n < |days| && AllPaid(Dividends(held))
    ensures r == CheckOne(p, Members(Dividends(held), DayOf(), days[n]), days[n], paid)
  {
    GroupOfDay(s, held, days, n);
    GroupIsPaid(Dividends(held), days[n]);
    r := CheckPaidDate(p, s.groups[days[n]], days[n], paid);
  }

  method MatchSettlements(p: Path, finalDay: int) returns (matches: seq<Settlement>)
    ensures matches == Filter(p.settlements, Matching(p, finalDay))
  {
    matches := [];
    for n := 0 to |p.settlements|
      invariant matches == Filter(p.settlements[..n], Matching(p, finalDay))
    {
      FilterNext(p.settlements, n, Matching(p, finalDay));
      if Matches(p, p.settlements[n], finalDay) { matches := matches + [p.settlements[n]]; }
    }
    assert p.settlements[..|p.settlements|] == p.settlements;
  }

  /** `_reference_cash_return`. */
  method ReferenceCashReturn(p: Path) returns (r: Result)
    requires WellPriced(p)
    ensures r == Reference(p)
  {
    if p.entry !in p.close.at { return Raised(EntryUnpriced); }
    if !p.lifecycle.validated { return Unsettled(p, LifecycleUnresolved, ExitPrice(p), [], []); }
    if p.currency != "USD" { return Unsettled(p, CurrencyUnresolved, ExitPrice(p), [], []); }
    if p.lifecycle.permaticker <= 0 { return Raised(BadPermaticker); }
    if p.lifecycle.finalDay.None? { return Raised(BadFinalDay); }
    var held := SelectHeld(p);
    r := PayReferenceHolder(p, held, p.lifecycle.finalDay.value);
  }

  method PayReferenceHolder(p: Path, held: seq<Action>, finalDay: int) returns (r: Result)
    requires Priced(p)
    ensures r == ReferencePaid(p, held, finalDay)
  {
    var s, stop, refused := SiftPaid(held);
    if refused { return Raised(BadDividend); }
    if stop.Some? { return Unsettled(p, ActionTermsUnresolved(stop.value), ExitPrice(p), [], s.ignored); }
    var progress := CheckPaidDates(p, held, s);
    match progress
    case Refused => return Raised(BadDividend);
    case Stopped(reason, paid) => return Unsettled(p, reason, ExitPrice(p), paid, s.ignored);
    case Going(paid) =>
      if (p.lifecycle.isDelisted == "Y" && finalDay < p.exit) || s.terminals != [] {
        var matches := MatchSettlements(p, finalDay);
        return Settled(p, matches, finalDay, paid, s.ignored);
      }
      return AtExit(p, paid, s.ignored);
  }
}
