/** What a cash return rests on, told in the path itself: its actions, its two price series, its settlements. */
module CashEvidence {
  import opened Optional
  import opened Ordering
  import opened TextOrder
  import opened Documents
  import opened Grouping
  import opened Rounding
  import opened CashPaths
  import opened CashReturns
  import opened CashLaws

  // ----- the dividends of the holding interval -----

  predicate HeldOver(p: Path, a: Action) { a.ticker == p.ticker && p.entry < a.day && a.day <= p.exit }

  predicate Pays(p: Path, a: Action) { HeldOver(p, a) && a.kind == "dividend" }

  /** The action's value is this positive number. */
  predicate Worth(a: Action, x: real) {
    x > 0.0 && (a.value == Float(x) || (a.value.Whole? && a.value.whole as real == x))
  }

  function WorthOf(a: Action): real {
    if a.value.Float? then a.value.number else if a.value.Whole? then a.value.whole as real else 0.0
  }

  /** What some of the first n actions are worth together. */
  function WorthSum(actions: seq<Action>, keep: Action -> bool, n: nat): real
    requires n <= |actions|
  {
    if n == 0 then 0.0
    else WorthSum(actions, keep, n - 1) + if keep(actions[n - 1]) then WorthOf(actions[n - 1]) else 0.0
  }

  /** What the dividends of one ex-date come to, and all of them. */
  function PaidOn(p: Path, day: int): real { WorthSum(p.actions, PaysOn(p, day), |p.actions|) }

  function PaidInAll(p: Path): real { WorthSum(p.actions, PaysAtAll(p), |p.actions|) }

  function PaysAtAll(p: Path): Action -> bool { (a: Action) => Pays(p, a) }

  /** The dividends with an ex-date before the limit. */
  function PaysBefore(p: Path, limit: int): Action -> bool { (a: Action) => Pays(p, a) && a.day < limit }

  function PaysOn(p: Path, day: int): Action -> bool { (a: Action) => Pays(p, a) && a.day == day }

  // ----- the price-adjustment check -----

  /** Day d is the last one before the ex-date that both price series have. */
  ghost predicate LastPriced(p: Path, day: int, d: int) {
    && d in p.close.at && d in p.adjusted.at && d < day
    && forall e | e in p.close.at && e in p.adjusted.at && e < day :: e <= d
  }

  predicate Size(x: real, s: real) { s == if x >= 0.0 then x else -x }

  /** The diagnosis of an ex-date with this total: the cash that keeps close plus cash moving as the adjusted price
      does, its distance from the total, and what that distance may be. */
  ghost predicate Diagnosed(p: Path, day: int, total: real, previous: int, implied: real, error: real, allowed: real) {
    && LastPriced(p, day, previous) && day in p.close.at && day in p.adjusted.at
    && (p.close.at[day] + implied) * p.adjusted.at[previous] == p.close.at[previous] * p.adjusted.at[day]
    && Size(implied - total, error) && Larger(p.absolute, p.relative, implied, total, allowed)
  }

  /** An absolute error and a share of the larger of the two amounts. */
  predicate Larger(absolute: real, relative: real, x: real, y: real, allowed: real) {
    var a, b := if x >= 0.0 then x else -x, if y >= 0.0 then y else -y;
    allowed == absolute + relative * (if a >= b then a else b)
  }

  /** Only one cash amount explains the adjustment. */
  lemma ImpliedTells(closeBefore: real, adjustedBefore: real, close: real, adjusted: real, x: real)
    requires adjustedBefore > 0.0
    ensures ImpliedBy(closeBefore, adjustedBefore, close, adjusted) == x
      <==> (close + x) * adjustedBefore == closeBefore * adjusted
  {
    var y := ImpliedBy(closeBefore, adjustedBefore, close, adjusted);
    assert (close + y) * adjustedBefore == closeBefore * adjusted by {
      assert close + y == closeBefore * adjusted / adjustedBefore;
    }
    if (close + x) * adjustedBefore == closeBefore * adjusted {
      assert (x - y) * adjustedBefore == 0.0;
    }
  }

  lemma LargerTells(absolute: real, relative: real, x: real, y: real)
    ensures Larger(absolute, relative, x, y, AllowedError(absolute, relative, x, y))
  {
  }

  lemma LastPricedTells(p: Path, day: int)
    requires SeriesHolds(p.close)
    ensures PriorDays(p.close.days, p.adjusted, day) == [] <==> forall d :: !LastPriced(p, day, d)
    ensures PriorDays(p.close.days, p.adjusted, day) != [] ==>
      LastPriced(p, day, Greatest(PriorDays(p.close.days, p.adjusted, day)))
  {
    var days := PriorDays(p.close.days, p.adjusted, day);
    forall d ensures d in days <==> d in p.close.at && d in p.adjusted.at && d < day {
      FilterKeeps(p.close.days, PricedBefore(p.adjusted, day), d);
    }
    if days == [] {
      forall d ensures !LastPriced(p, day, d) { assert d !in days; }
    } else {
      assert LastPriced(p, day, Greatest(days));
    }
  }

  /** The verdict on an ex-date: it passes with its diagnosis, or fails for want of a price or for a wrong amount. */
  ghost predicate VerdictTold(p: Path, day: int, total: real, v: Verdict) {
    match v
    case Passes(previous, implied, error, allowed) =>
      Diagnosed(p, day, total, previous, implied, error, allowed) && error <= allowed
    case Fails(DividendDateUnpriced) => day !in p.close.at || day !in p.adjusted.at
    case Fails(NoPriorPrices) => day in p.close.at && day in p.adjusted.at && forall d :: !LastPriced(p, day, d)
    case Fails(AmountMismatch) =>
      exists previous, implied, error, allowed ::
        Diagnosed(p, day, total, previous, implied, error, allowed) && error > allowed
    case Fails(_) => false
  }

  lemma VerdictTells(p: Path, day: int, total: real)
    requires Priced(p)
    ensures VerdictTold(p, day, total, DayVerdict(p, day, total))
  {
    LastPricedTells(p, day);
    if Evidence(p, day).None? {
      var previous := Previous(p, day);
      var implied := Implied(p, previous, day);
      ImpliedTells(p.close.at[previous], p.adjusted.at[previous], p.close.at[day], p.adjusted.at[day], implied);
      LargerTells(p.absolute, p.relative, implied, total);
      assert Diagnosed(p, day, total, previous, implied, Abs(implied - total), Allowance(p, implied, total));
    }
  }

  predicate Explains(p: Path, day: int, previous: int, x: real)
    requires day in p.close.at && day in p.adjusted.at && previous in p.close.at && previous in p.adjusted.at
  {
    (p.close.at[day] + x) * p.adjusted.at[previous] == p.close.at[previous] * p.adjusted.at[day]
  }

  lemma LargerIsAllowed(absolute: real, relative: real, x: real, y: real, allowed: real)
    requires Larger(absolute, relative, x, y, allowed)
    ensures allowed == AllowedError(absolute, relative, x, y)
    ensures absolute >= 0.0 && relative >= 0.0 ==> allowed >= 0.0
  {
  }

  /** Where the prices explain the amount x, a total passes exactly when it is no further from x than its allowance. */
  lemma {:induction false} TotalDecides(p: Path, day: int, previous: int, x: real, total: real, error: real,
                                        allowed: real)
    requires Priced(p) && LastPriced(p, day, previous) && day in p.close.at && day in p.adjusted.at
    requires Explains(p, day, previous, x) && Size(x - total, error)
    requires Larger(p.absolute, p.relative, x, total, allowed)
    ensures DayVerdict(p, day, total)
      == if error > allowed then Fails(AmountMismatch) else Passes(previous, x, error, allowed)
  {
    LastPricedTells(p, day);
    var latest := Greatest(PriorDays(p.close.days, p.adjusted, day));
    assert latest <= previous && previous <= latest;
    ExplainedIsImplied(p, day, previous, x);
    LargerIsAllowed(p.absolute, p.relative, x, total, allowed);
  }

  lemma ExplainedIsImplied(p: Path, day: int, previous: int, x: real)
    requires day in p.close.at && day in p.adjusted.at && previous in p.close.at && previous in p.adjusted.at
    requires SeriesHolds(p.adjusted) && Explains(p, day, previous, x)
    ensures Implied(p, previous, day) == x
  {
    ImpliedTells(p.close.at[previous], p.adjusted.at[previous], p.close.at[day], p.adjusted.at[day], x);
  }

  /** So the amount itself passes, with no error. */
  lemma {:induction false} ExactTotalPasses(p: Path, day: int, previous: int, x: real)
    requires Priced(p) && LastPriced(p, day, previous) && day in p.close.at && day in p.adjusted.at
    requires Explains(p, day, previous, x) && p.absolute >= 0.0 && p.relative >= 0.0
    ensures DayVerdict(p, day, x).Passes? && DayVerdict(p, day, x).error == 0.0 && DayVerdict(p, day, x).implied == x
  {
    var allowed := AllowedError(p.absolute, p.relative, x, x);
    LargerTells(p.absolute, p.relative, x, x);
    LargerIsAllowed(p.absolute, p.relative, x, x, allowed);
    TotalDecides(p, day, previous, x, x, 0.0, allowed);
  }

  // ----- the held dividends, in canonical order and as they come -----

  lemma {:induction false} SortKeepsAll<T>(s: seq<T>, le: (T, T) -> bool)
    ensures multiset(Sort(s, le)) == multiset(s)
  {
    if s != [] {
      SortKeepsAll(s[1..], le);
      InsertKeeps(s[0], Sort(s[1..], le), le);
      assert s == [s[0]] + s[1..];
    }
  }

  lemma HeldTells(p: Path, a: Action)
    ensures a in Held(p) <==> a in p.actions && HeldOver(p, a)
  {
    SortKeeps(Filter(p.actions, HeldBy(p)), ActionLe, a);
    FilterKeeps(p.actions, HeldBy(p), a);
  }

  function KeptOf(p: Path, keep: Action -> bool): seq<Action> { Filter(p.actions, keep) }

  /** Keeping the held actions of a kind, in canonical order, is keeping them as they come, but for the order. */
  lemma {:induction false} KeptOfHeld(p: Path, keep: Action -> bool, both: Action -> bool)
    requires forall a :: both(a) <==> HeldOver(p, a) && keep(a)
    ensures multiset(Filter(Held(p), keep)) == multiset(KeptOf(p, both))
  {
    var held := Filter(p.actions, HeldBy(p));
    SortKeepsAll(held, ActionLe);
    FilterIgnoresOrder(Held(p), held, keep);
    FilterIgnoresOrder(held, held, keep);
    forall a ensures multiset(Filter(held, keep))[a] == multiset(KeptOf(p, both))[a] {
      FilterCount(held, keep, a);
      FilterCount(p.actions, HeldBy(p), a);
      FilterCount(p.actions, both, a);
    }
  }

  lemma {:induction false} MembersAreKept(rows: seq<Action>, day: int, keep: Action -> bool)
    requires forall a :: keep(a) <==> a.day == day
    ensures Members(rows, DayOf(), day) == Filter(rows, keep)
  {
    if rows != [] {
      MembersAreKept(rows[..|rows| - 1], day, keep);
      assert DayOf()(rows[|rows| - 1]) == rows[|rows| - 1].day;
    }
  }

  function OnDay(day: int): Action -> bool { (a: Action) => a.day == day }

  /** The dividends of an ex-date are those of the path. */
  lemma {:induction false} GroupTells(p: Path, day: int)
    ensures multiset(Members(Dividends(Held(p)), DayOf(), day)) == multiset(KeptOf(p, PaysOn(p, day)))
  {
    MembersAreKept(Dividends(Held(p)), day, OnDay(day));
    forall a ensures multiset(Members(Dividends(Held(p)), DayOf(), day))[a] == multiset(KeptOf(p, PaysOn(p, day)))[a] {
      FilterCount(Dividends(Held(p)), OnDay(day), a);
      FilterCount(Held(p), KindDividend(), a);
      FilterCount(Filter(p.actions, HeldBy(p)), KindDividend(), a);
      FilterCount(p.actions, HeldBy(p), a);
      FilterCount(p.actions, PaysOn(p, day), a);
      SortKeepsAll(Filter(p.actions, HeldBy(p)), ActionLe);
    }
  }

  lemma AmountTells(a: Action, x: real)
    ensures Amount(a) == Some(x) <==> Worth(a, x)
  {
  }

  lemma {:induction false} TotalOfKept(actions: seq<Action>, keep: Action -> bool, n: nat)
    requires n <= |actions| && AllPaid(Filter(actions[..n], keep))
    ensures SumOf(Amounts(Filter(actions[..n], keep))) == WorthSum(actions, keep, n)
  {
    if n > 0 {
      FilterNext(actions, n - 1, keep);
      var before, a := Filter(actions[..n - 1], keep), actions[n - 1];
      if keep(a) {
        var kept := Filter(actions[..n], keep);
        assert kept == before + [a] && kept[..|before|] == before && kept[|before|] == a;
        PaidFront(before, a);
        TotalOfKept(actions, keep, n - 1);
        AmountTells(a, Amount(a).value);
        SumOfNext(Amounts(before), Amount(a).value);
      } else {
        assert Filter(actions[..n], keep) == before;
        TotalOfKept(actions, keep, n - 1);
      }
    }
  }

  lemma PaidFront(before: seq<Action>, a: Action)
    requires AllPaid(before + [a])
    ensures AllPaid(before) && Amount(a).Some? && Amounts(before + [a]) == Amounts(before) + [Amount(a).value]
  {
    assert (before + [a])[|before|] == a;
    forall i | 0 <= i < |before| ensures Amount(before[i]).Some? { assert (before + [a])[i] == before[i]; }
  }

  /** What an ex-date is checked for is what its dividends come to. */
  lemma {:induction false} TotalTells(p: Path, day: int)
    requires AllPaid(Members(Dividends(Held(p)), DayOf(), day))
    ensures SumOf(Amounts(Members(Dividends(Held(p)), DayOf(), day))) == PaidOn(p, day)
  {
    GroupTells(p, day);
    assert p.actions[..|p.actions|] == p.actions;
    TotalIgnoresOrder(Members(Dividends(Held(p)), DayOf(), day), KeptOf(p, PaysOn(p, day)));
    TotalOfKept(p.actions, PaysOn(p, day), |p.actions|);
  }

  // ----- the entries -----

  /** An entry books one dividend of the path, with the diagnosis of its ex-date. */
  ghost predicate EntryTold(p: Path, c: Cash) {
    && c.action in p.actions && Pays(p, c.action) && Worth(c.action, c.amount) && c.error <= c.allowed
    && Diagnosed(p, c.action.day, PaidOn(p, c.action.day), c.previous, c.implied, c.error, c.allowed)
  }

  /** The entries book every dividend with an ex-date before the limit, each once, ex-date by ex-date. */
  ghost predicate Booked(p: Path, paid: seq<Cash>, limit: int) {
    && (forall i | 0 <= i < |paid| :: EntryTold(p, paid[i]))
    && multiset(ActionsOf(paid)) == multiset(KeptOf(p, PaysBefore(p, limit)))
    && forall i, j | 0 <= i < j < |paid| :: paid[i].action.day <= paid[j].action.day
  }

  function LimitAt(p: Path, days: seq<int>, n: nat): int { if n < |days| then days[n] else p.exit + 1 }

  /** The ex-dates ascend, and are those of the dividends. */
  lemma {:induction false} ExDatesTell(p: Path)
    ensures var days := ExDates(Dividends(Held(p)));
      && (forall i, j | 0 <= i < j < |days| :: days[i] < days[j])
      && forall d :: d in days <==> exists a | a in p.actions :: Pays(p, a) && a.day == d
  {
    var dividends := Dividends(Held(p));
    var days := ExDates(dividends);
    assert TotalOrder(IntLe);
    SortSorts(KeyList(dividends, DayOf()), IntLe);
    KeysAreDistinct(dividends, DayOf());
    DistinctSort(KeyList(dividends, DayOf()), IntLe);
    forall i, j | 0 <= i < j < |days| ensures days[i] < days[j] { assert IntLe(days[i], days[j]); }
    forall d ensures d in days <==> exists a | a in p.actions :: Pays(p, a) && a.day == d {
      SortMembers(KeyList(dividends, DayOf()), IntLe, d);
      KeyHasRow(dividends, DayOf(), d);
      if a :| a in dividends && DayOf()(a) == d { DividendTells(p, a); }
      if a :| a in p.actions && Pays(p, a) && a.day == d {
        DividendTells(p, a);
        assert DayOf()(a) == d;
      }
    }
  }

  lemma DividendTells(p: Path, a: Action)
    ensures a in Dividends(Held(p)) <==> a in p.actions && Pays(p, a)
  {
    FilterKeeps(Held(p), KindDividend(), a);
    HeldTells(p, a);
  }

  /** A dividend has an ex-date among the first n exactly when that is before the next one. */
  lemma {:induction false} BeforeLimit(p: Path, n: nat, a: Action)
    requires n <= |ExDates(Dividends(Held(p)))| && a in p.actions && Pays(p, a)
    ensures var days := ExDates(Dividends(Held(p))); a.day in days[..n] <==> a.day < LimitAt(p, days, n)
  {
    var days := ExDates(Dividends(Held(p)));
    ExDatesTell(p);
    assert a.day in days;
    var i :| 0 <= i < |days| && days[i] == a.day;
    if a.day in days[..n] { var j :| 0 <= j < n && days[j] == a.day; }
    if i < n { assert days[..n][i] == a.day; }
  }

  lemma {:induction false} ConcatTells(p: Path, n: nat)
    requires n <= |ExDates(Dividends(Held(p)))|
    ensures var days := ExDates(Dividends(Held(p)));
      multiset(Concat(Dividends(Held(p)), days, n)) == multiset(KeptOf(p, PaysBefore(p, LimitAt(p, days, n))))
  {
    var dividends, days := Dividends(Held(p)), ExDates(Dividends(Held(p)));
    var limit := LimitAt(p, days, n);
    ExDatesTell(p);
    forall a ensures multiset(Concat(dividends, days, n))[a] == multiset(KeptOf(p, PaysBefore(p, limit)))[a] {
      ConcatCount(dividends, days, n, a);
      FilterCount(Held(p), KindDividend(), a);
      FilterCount(Filter(p.actions, HeldBy(p)), KindDividend(), a);
      FilterCount(p.actions, HeldBy(p), a);
      FilterCount(p.actions, PaysBefore(p, limit), a);
      SortKeepsAll(Filter(p.actions, HeldBy(p)), ActionLe);
      if a in p.actions && Pays(p, a) {
        BeforeLimit(p, n, a);
      } else {
        assert multiset(p.actions)[a] == 0 || !Pays(p, a);
      }
    }
  }

  lemma {:induction false} ConcatAscends(rows: seq<Action>, days: seq<int>, n: nat)
    requires n <= |days| && forall i, j | 0 <= i < j < |days| :: days[i] < days[j]
    ensures forall i | 0 <= i < |Concat(rows, days, n)| :: n > 0 && Concat(rows, days, n)[i].day <= days[n - 1]
    ensures forall i, j | 0 <= i < j < |Concat(rows, days, n)| ::
              Concat(rows, days, n)[i].day <= Concat(rows, days, n)[j].day
  {
    if n > 0 {
      ConcatAscends(rows, days, n - 1);
      assert n > 1 ==> days[n - 2] < days[n - 1];
      var before, group := Concat(rows, days, n - 1), Members(rows, DayOf(), days[n - 1]);
      forall i | 0 <= i < |group| ensures group[i].day == days[n - 1] {
        MembersHaveKey(rows, DayOf(), days[n - 1], i);
        assert DayOf()(group[i]) == group[i].day;
      }
      Ascending(before, group, days[n - 1]);
      assert Concat(rows, days, n) == before + group;
    } else {
      assert Concat(rows, days, n) == [];
    }
  }

  /** Actions of one day come after those of earlier days. */
  lemma Ascending(before: seq<Action>, group: seq<Action>, day: int)
    requires forall i | 0 <= i < |before| :: before[i].day <= day
    requires forall i, j | 0 <= i < j < |before| :: before[i].day <= before[j].day
    requires forall i | 0 <= i < |group| :: group[i].day == day
    ensures var all := before + group;
      && (forall i | 0 <= i < |all| :: all[i].day <= day)
      && forall i, j | 0 <= i < j < |all| :: all[i].day <= all[j].day
  {
  }

  lemma {:induction false} GoingTells(p: Path, n: nat)
    requires Priced(p) && n <= |ExDates(Dividends(Held(p)))|
    requires CheckDays(p, Dividends(Held(p)), ExDates(Dividends(Held(p))), n).Going?
    ensures var days := ExDates(Dividends(Held(p)));
      Booked(p, CheckDays(p, Dividends(Held(p)), days, n).paid, LimitAt(p, days, n))
  {
    var dividends, days := Dividends(Held(p)), ExDates(Dividends(Held(p)));
    var paid := CheckDays(p, dividends, days, n).paid;
    CheckedEntries(p, dividends, days, n);
    ConcatTells(p, n);
    ExDatesTell(p);
    ConcatAscends(dividends, days, n);
    forall i | 0 <= i < |paid| ensures EntryTold(p, paid[i]) { EntryTells(p, n, i); }
    forall i, j | 0 <= i < j < |paid| ensures paid[i].action.day <= paid[j].action.day {
      assert ActionsOf(paid)[i] == paid[i].action && ActionsOf(paid)[j] == paid[j].action;
    }
  }

  lemma {:induction false} EntryTells(p: Path, n: nat, i: nat)
    requires Priced(p) && n <= |ExDates(Dividends(Held(p)))|
    requires CheckDays(p, Dividends(Held(p)), ExDates(Dividends(Held(p))), n).Going?
    requires i < |CheckDays(p, Dividends(Held(p)), ExDates(Dividends(Held(p))), n).paid|
    ensures EntryTold(p, CheckDays(p, Dividends(Held(p)), ExDates(Dividends(Held(p))), n).paid[i])
  {
    var dividends, days := Dividends(Held(p)), ExDates(Dividends(Held(p)));
    var paid := CheckDays(p, dividends, days, n).paid;
    var c := paid[i];
    CheckedEntries(p, dividends, days, n);
    EntriesShowVerdicts(p, dividends, days, n, i);
    TotalTells(p, c.action.day);
    VerdictTells(p, c.action.day, PaidOn(p, c.action.day));
    AmountTells(c.action, c.amount);
    assert ActionsOf(paid)[i] == c.action;
    assert c.action in multiset(ActionsOf(paid));
    ConcatTells(p, n);
    FilterKeeps(p.actions, PaysBefore(p, LimitAt(p, days, n)), c.action);
    assert c.action in multiset(KeptOf(p, PaysBefore(p, LimitAt(p, days, n))));
  }

  // ----- how far the check of the ex-dates comes -----

  predicate AllWorth(p: Path, day: int) {
    forall i | 0 <= i < |p.actions| && Pays(p, p.actions[i]) && p.actions[i].day == day :: WorthOf(p.actions[i]) > 0.0
  }

  /** The check is through, with every dividend booked; or it stopped at an ex-date, those before it booked; or it met
      a dividend without a positive amount, those before it having passed. */
  ghost predicate ProgressTold(p: Path, progress: Progress) {
    match progress
    case Going(paid) => Booked(p, paid, p.exit + 1)
    case Stopped(reason, before) => StoppedTold(p, reason, before)
    case Refused => exists a, before | a in p.actions ::
        Pays(p, a) && !(WorthOf(a) > 0.0) && Booked(p, before, a.day)
  }

  ghost predicate StoppedTold(p: Path, reason: Reason, before: seq<Cash>) {
    exists a | a in p.actions ::
      && Pays(p, a) && AllWorth(p, a.day) && Booked(p, before, a.day)
      && VerdictTold(p, a.day, PaidOn(p, a.day), Fails(reason))
  }

  lemma {:induction false} StopsAt(p: Path, dividends: seq<Action>, days: seq<int>, n: nat) returns (m: nat)
    requires Priced(p) && n <= |days| && !CheckDays(p, dividends, days, n).Going?
    ensures m < n && CheckDays(p, dividends, days, m).Going?
    ensures CheckDays(p, dividends, days, n) == CheckOne(p, Members(dividends, DayOf(), days[m]), days[m],
                                                         CheckDays(p, dividends, days, m).paid)
  {
    if CheckDays(p, dividends, days, n - 1).Going? { m := n - 1; } else { m := StopsAt(p, dividends, days, n - 1); }
  }

  lemma SameRows(a: seq<Action>, b: seq<Action>, x: Action)
    requires multiset(a) == multiset(b)
    ensures x in a <==> x in b
  {
    assert x in a <==> x in multiset(a);
    assert x in b <==> x in multiset(b);
  }

  lemma {:induction false} InGroup(p: Path, day: int, a: Action)
    ensures a in Members(Dividends(Held(p)), DayOf(), day) <==> a in p.actions && Pays(p, a) && a.day == day
  {
    GroupTells(p, day);
    SameRows(Members(Dividends(Held(p)), DayOf(), day), KeptOf(p, PaysOn(p, day)), a);
    FilterKeeps(p.actions, PaysOn(p, day), a);
  }

  lemma {:induction false} PaidTells(p: Path, day: int)
    ensures AllPaid(Members(Dividends(Held(p)), DayOf(), day)) <==> AllWorth(p, day)
  {
    var group := Members(Dividends(Held(p)), DayOf(), day);
    if AllPaid(group) {
      forall i | 0 <= i < |p.actions| && Pays(p, p.actions[i]) && p.actions[i].day == day
        ensures WorthOf(p.actions[i]) > 0.0
      {
        InGroup(p, day, p.actions[i]);
        var j :| 0 <= j < |group| && group[j] == p.actions[i];
        WorthTells(group[j]);
      }
    }
    if AllWorth(p, day) {
      forall j | 0 <= j < |group| ensures Amount(group[j]).Some? {
        InGroup(p, day, group[j]);
        var i :| 0 <= i < |p.actions| && p.actions[i] == group[j];
        WorthTells(p.actions[i]);
      }
    }
  }

  lemma WorthTells(a: Action)
    ensures Amount(a).Some? <==> WorthOf(a) > 0.0
  {
  }

  lemma {:induction false} ProgressTells(p: Path)
    requires Priced(p)
    ensures ProgressTold(p, AllChecked(p, Held(p)))
  {
    var dividends, days := Dividends(Held(p)), ExDates(Dividends(Held(p)));
    var progress := CheckDays(p, dividends, days, |days|);
    if progress.Going? {
      GoingTells(p, |days|);
    } else {
      var m := StopsAt(p, dividends, days, |days|);
      StopTells(p, m);
    }
  }

  lemma {:induction false} StopTells(p: Path, m: nat)
    requires Priced(p) && m < |ExDates(Dividends(Held(p)))|
    requires CheckDays(p, Dividends(Held(p)), ExDates(Dividends(Held(p))), m).Going?
    ensures var dividends, days := Dividends(Held(p)), ExDates(Dividends(Held(p)));
      var progress := CheckOne(p, Members(dividends, DayOf(), days[m]), days[m], CheckDays(p, dividends, days, m).paid);
      progress.Going? || ProgressTold(p, progress)
  {
    var dividends, days := Dividends(Held(p)), ExDates(Dividends(Held(p)));
    var before := CheckDays(p, dividends, days, m).paid;
    GoingTells(p, m);
    ExDatesTell(p);
    assert days[m] in days;
    var a :| a in p.actions && Pays(p, a) && a.day == days[m];
    PaidTells(p, days[m]);
    if AllWorth(p, days[m]) {
      TotalTells(p, days[m]);
      VerdictTells(p, days[m], PaidOn(p, days[m]));
    } else {
      var i :| 0 <= i < |p.actions| && Pays(p, p.actions[i]) && p.actions[i].day == days[m]
               && !(WorthOf(p.actions[i]) > 0.0);
      assert p.actions[i] in p.actions && Booked(p, before, p.actions[i].day);
    }
  }

  // ----- the outcome -----

  predicate Terminal(kind: string) {
    || kind == "acquisitionby" || kind == "bankruptcyliquidation" || kind == "delisted" || kind == "mergerfrom"
    || kind == "mergerto" || kind == "regulatorydelisting" || kind == "voluntarydelisting"
  }

  predicate Understood(kind: string) { kind == "dividend" || kind == "acquisitionof" || Terminal(kind) }

  /** Canonical order: by day, then by kind, name and the contra fields. */
  predicate ComesFirst(a: Action, b: Action) {
    if a.day != b.day then a.day < b.day
    else if a.kind != b.kind then TextLe(a.kind, b.kind)
    else if a.name != b.name then TextLe(a.name, b.name)
    else if ContraTicker(a) != ContraTicker(b) then TextLe(ContraTicker(a), ContraTicker(b))
    else TextLe(ContraName(a), ContraName(b))
  }

  function ContraTicker(a: Action): string { if a.contraTicker.Some? then a.contraTicker.value else "" }

  function ContraName(a: Action): string { if a.contraName.Some? then a.contraName.value else "" }

  predicate PriceOn(s: Series, day: int, x: Option<real>) {
    match x case Some(price) => day in s.at && s.at[day] == price case None => day !in s.at
  }

  /** The adjusted return over the path, where both ends are priced. */
  predicate DiagnosticIs(p: Path, x: Option<real>) {
    match x
    case Some(r) =>
      p.entry in p.adjusted.at && p.exit in p.adjusted.at && (1.0 + r) * p.adjusted.at[p.entry] == p.adjusted.at[p.exit]
    case None => p.entry !in p.adjusted.at || p.exit !in p.adjusted.at
  }

  function Acquires(p: Path): Action -> bool { (a: Action) => HeldOver(p, a) && a.kind == "acquisitionof" }

  /** The security was delisted before the exit, or the holding saw a terminal action. */
  predicate NeedsCash(p: Path) {
    || (p.lifecycle.isDelisted == "Y" && p.lifecycle.finalDay.Some? && p.lifecycle.finalDay.value < p.exit)
    || exists i | 0 <= i < |p.actions| :: HeldOver(p, p.actions[i]) && Terminal(p.actions[i].kind)
  }

  predicate Belongs(p: Path, s: Settlement) {
    s.ticker == p.ticker && s.permaticker == p.lifecycle.permaticker
    && s.lastPriceDay.Some? && s.lastPriceDay == p.lifecycle.finalDay
  }

  /** Settlement i is the only one of the security's last day. */
  predicate OnlySettlement(p: Path, i: int) {
    && 0 <= i < |p.settlements| && Belongs(p, p.settlements[i])
    && forall j | 0 <= j < |p.settlements| && Belongs(p, p.settlements[j]) :: j == i
  }

  predicate CashIs(v: Value, x: real) { x > 0.0 && (v == Float(x) || (v.Whole? && v.whole as real == x)) }

  /** What the holding ends in: the exit close, or the cash of the one settlement, received by the exit. */
  predicate EndsIn(p: Path, exitPrice: Option<real>, settlement: Option<(int, int, int)>, base: real) {
    if NeedsCash(p) then
      && exitPrice.None? && settlement.Some?
      && exists i | 0 <= i < |p.settlements| ::
           && OnlySettlement(p, i) && CashIs(p.settlements[i].cash, base)
           && p.settlements[i].day == Some(settlement.value.2) && settlement.value.2 <= p.exit
           && settlement.value.0 == p.lifecycle.permaticker && Some(settlement.value.1) == p.lifecycle.finalDay
    else
      settlement.None? && exitPrice == Some(base) && p.exit in p.close.at && base == p.close.at[p.exit]
  }

  predicate AllUnderstood(p: Path) {
    forall i | 0 <= i < |p.actions| && HeldOver(p, p.actions[i]) :: Understood(p.actions[i].kind)
  }

  /** At this return the price becomes the value. */
  predicate Grows(price: real, gross: real, value: real) { price * (1.0 + gross) == value }

  /** What a resolved return says. */
  ghost predicate ResolvedTold(p: Path, r: Result)
    requires Priced(p) && r.Resolved?
  {
    && p.lifecycle.validated && p.currency == "USD" && AllUnderstood(p)
    && r.entryPrice == p.close.at[p.entry] && Booked(p, r.distributions, p.exit + 1)
    && r.cashTotal == PaidInAll(p) && EndsIn(p, r.exitPrice, r.settlement, r.terminalValue - r.cashTotal)
    && Grows(r.entryPrice, r.grossReturn, r.terminalValue) && DiagnosticIs(p, r.diagnostic)
    && multiset(r.ignored) == multiset(KeptOf(p, Acquires(p)))
  }

  /** What an unresolved one says: the reason it gives is so, and what it books had passed before. */
  ghost predicate UnresolvedTold(p: Path, r: Result)
    requires Priced(p) && r.Unresolved?
  {
    && r.entryPrice == p.close.at[p.entry] && DiagnosticIs(p, r.diagnostic)
    && match r.reason
       case LifecycleUnresolved => !p.lifecycle.validated && Untouched(p, r)
       case CurrencyUnresolved => p.lifecycle.validated && p.currency != "USD" && Untouched(p, r)
       case ActionTermsUnresolved(kind) => p.lifecycle.validated && PriceOn(p.close, p.exit, r.exitPrice)
         && r.distributions == [] && FirstUnknown(p, kind)
       case DividendDateUnpriced | NoPriorPrices | AmountMismatch =>
         && p.lifecycle.validated && PriceOn(p.close, p.exit, r.exitPrice) && AllUnderstood(p)
         && StoppedTold(p, r.reason, r.distributions) && multiset(r.ignored) == multiset(KeptOf(p, Acquires(p)))
       case SettlementMissing | CashNotReceived | ExitUnpriced =>
         && p.lifecycle.validated && r.exitPrice.None? && AllUnderstood(p) && Booked(p, r.distributions, p.exit + 1)
         && EndMissing(p, r.reason) && multiset(r.ignored) == multiset(KeptOf(p, Acquires(p)))
  }

  predicate Untouched(p: Path, r: Result)
    requires r.Unresolved?
  {
    PriceOn(p.close, p.exit, r.exitPrice) && r.distributions == [] && r.ignored == []
  }

  /** The kind is that of the first held action, in canonical order, whose terms are not understood. */
  ghost predicate FirstUnknown(p: Path, kind: string) {
    exists a | a in p.actions ::
      && HeldOver(p, a) && !Understood(a.kind) && a.kind == kind
      && forall b | b in p.actions && HeldOver(p, b) && !Understood(b.kind) :: ComesFirst(a, b)
  }

  /** Why a checked path has no end. */
  predicate EndMissing(p: Path, reason: Reason) {
    match reason
    case SettlementMissing => NeedsCash(p) && forall i | 0 <= i < |p.settlements| :: !OnlySettlement(p, i)
    case CashNotReceived => NeedsCash(p) && exists i | 0 <= i < |p.settlements| ::
        OnlySettlement(p, i) && p.settlements[i].day.Some? && p.settlements[i].day.value > p.exit
    case ExitUnpriced => !NeedsCash(p) && p.exit !in p.close.at
    case _ => false
  }

  // ----- the canonical order -----

  lemma OrderTells(a: Action, b: Action)
    ensures ActionLe(a, b) <==> ComesFirst(a, b)
  {
    TextLeIsTotalOrder();
    var x, y := [ContraTicker(a), ContraName(a)], [ContraTicker(b), ContraName(b)];
    assert KeyTexts(a) == [a.kind] + ([a.name] + x) && KeyTexts(b) == [b.kind] + ([b.name] + y);
    TextsLeNext(a.kind, [a.name] + x, b.kind, [b.name] + y);
    TextsLeNext(a.name, x, b.name, y);
    assert x == [ContraTicker(a)] + [ContraName(a)] && y == [ContraTicker(b)] + [ContraName(b)];
    TextsLeNext(ContraTicker(a), [ContraName(a)], ContraTicker(b), [ContraName(b)]);
  }

  lemma TextsLeNext(x: string, s: seq<string>, y: string, t: seq<string>)
    ensures TextsLe([x] + s, [y] + t) <==> if x == y then TextsLe(s, t) else TextLe(x, y)
  {
    assert ([x] + s)[1..] == s && ([y] + t)[1..] == t;
  }

  lemma {:induction false} TextsLeTotal(a: seq<string>, b: seq<string>)
    ensures TextsLe(a, b) || TextsLe(b, a)
  {
    if a != [] && b != [] {
      TextLeTotal(a[0], b[0]);
      TextsLeTotal(a[1..], b[1..]);
    }
  }

  lemma {:induction false} TextsLeTransitive(a: seq<string>, b: seq<string>, c: seq<string>)
    requires TextsLe(a, b) && TextsLe(b, c)
    ensures TextsLe(a, c)
  {
    if a != [] {
      if a[0] == b[0] == c[0] {
        TextsLeTransitive(a[1..], b[1..], c[1..]);
      } else {
        TextLeIsTotalOrder();
      }
    }
  }

  lemma ActionsAreOrdered()
    ensures Preorder(ActionLe)
  {
    forall a, b ensures ActionLe(a, b) || ActionLe(b, a) { TextsLeTotal(KeyTexts(a), KeyTexts(b)); }
    forall a, b, c | ActionLe(a, b) && ActionLe(b, c) ensures ActionLe(a, c) {
      if a.day == c.day { TextsLeTransitive(KeyTexts(a), KeyTexts(b), KeyTexts(c)); }
    }
  }

  // ----- the outcome of the first implementation -----

  lemma KindTells(kind: string)
    ensures IsUnresolved(kind) <==> !Understood(kind)
    ensures IsTerminal(kind) <==> Terminal(kind)
  {
  }

  lemma {:induction false} UnderstoodTells(p: Path)
    ensures StopAt(Held(p)) == |Held(p)| <==> AllUnderstood(p)
  {
    var held := Held(p);
    if StopAt(held) < |held| {
      HeldTells(p, held[StopAt(held)]);
      KindTells(held[StopAt(held)].kind);
    } else {
      forall i | 0 <= i < |p.actions| && HeldOver(p, p.actions[i]) ensures Understood(p.actions[i].kind) {
        HeldTells(p, p.actions[i]);
        var j :| 0 <= j < |held| && held[j] == p.actions[i];
        KindTells(held[j].kind);
      }
    }
  }

  lemma {:induction false} StopTold(p: Path)
    requires StopAt(Held(p)) < |Held(p)|
    ensures FirstUnknown(p, Held(p)[StopAt(Held(p))].kind)
  {
    var held := Held(p);
    var a := held[StopAt(held)];
    ActionsAreOrdered();
    SortSorts(Filter(p.actions, HeldBy(p)), ActionLe);
    HeldTells(p, a);
    KindTells(a.kind);
    forall b | b in p.actions && HeldOver(p, b) && !Understood(b.kind) ensures ComesFirst(a, b) {
      HeldTells(p, b);
      KindTells(b.kind);
      var j :| 0 <= j < |held| && held[j] == b;
      OrderTells(a, b);
      if j == StopAt(held) { OrderTells(a, a); }
    }
  }

  lemma {:induction false} NeedTells(p: Path, finalDay: int)
    requires p.lifecycle.finalDay == Some(finalDay)
    ensures NeedsSettlement(p, Held(p), finalDay) <==> NeedsCash(p)
  {
    var held, terminals := Held(p), Terminals(Held(p));
    if terminals != [] {
      FilterKeeps(held, KindTerminal(), terminals[0]);
      HeldTells(p, terminals[0]);
      KindTells(terminals[0].kind);
      var i :| 0 <= i < |p.actions| && p.actions[i] == terminals[0];
    }
    if i :| 0 <= i < |p.actions| && HeldOver(p, p.actions[i]) && Terminal(p.actions[i].kind) {
      HeldTells(p, p.actions[i]);
      KindTells(p.actions[i].kind);
      FilterKeeps(held, KindTerminal(), p.actions[i]);
    }
  }

  lemma {:induction false} SettlementTells(p: Path, finalDay: int)
    requires p.lifecycle.finalDay == Some(finalDay)
    ensures var matches := Filter(p.settlements, Matching(p, finalDay));
      && (|matches| == 1 <==> exists i | 0 <= i < |p.settlements| :: OnlySettlement(p, i))
      && forall i | 0 <= i < |p.settlements| && OnlySettlement(p, i) :: matches == [p.settlements[i]]
  {
    var keep := Matching(p, finalDay);
    var matches := Filter(p.settlements, keep);
    forall i | 0 <= i < |p.settlements| ensures keep(p.settlements[i]) <==> Belongs(p, p.settlements[i]) {
    }
    if |matches| == 1 {
      var i := KeptIsSole(p.settlements, keep);
      assert OnlySettlement(p, i);
    }
    forall i | 0 <= i < |p.settlements| && OnlySettlement(p, i) ensures matches == [p.settlements[i]] {
      SoleIsKept(p.settlements, keep, i);
    }
  }

  lemma DiagnosticTells(p: Path)
    requires Priced(p)
    ensures DiagnosticIs(p, Diagnostic(p))
  {
    if p.entry in p.adjusted.at && p.exit in p.adjusted.at {
      Ratio(p.adjusted.at[p.exit], p.adjusted.at[p.entry]);
    }
  }

  lemma Ratio(x: real, y: real)
    requires y != 0.0
    ensures (1.0 + (x / y - 1.0)) * y == x
  {
  }

  lemma {:induction false} AcquiredTells(p: Path)
    ensures multiset(Ignored(Held(p))) == multiset(KeptOf(p, Acquires(p)))
  {
    KeptOfHeld(p, KindIgnored(), Acquires(p));
  }

  lemma {:induction false} TotalPaid(p: Path)
    requires Priced(p) && AllChecked(p, Held(p)).Going?
    ensures CashTotal(AllChecked(p, Held(p)).paid) == PaidInAll(p)
  {
    var dividends := Dividends(Held(p));
    CheckedTotal(p, dividends);
    KeptOfHeld(p, KindDividend(), PaysAtAll(p));
    TotalIgnoresOrder(dividends, KeptOf(p, PaysAtAll(p)));
    assert p.actions[..|p.actions|] == p.actions;
    TotalOfKept(p.actions, PaysAtAll(p), |p.actions|);
  }

  /** A path checked through: what it paid and what it ignored. */
  ghost predicate CheckedThrough(p: Path, paid: seq<Cash>, ignored: seq<Action>) {
    && p.lifecycle.validated && p.currency == "USD" && AllUnderstood(p) && Booked(p, paid, p.exit + 1)
    && CashTotal(paid) == PaidInAll(p) && multiset(ignored) == multiset(KeptOf(p, Acquires(p)))
  }

  ghost predicate EndTold(p: Path, r: Result)
    requires Priced(p)
  {
    (r.Resolved? ==> ResolvedTold(p, r)) && (r.Unresolved? ==> UnresolvedTold(p, r))
  }

  lemma {:induction false} ValueTells(p: Path, exitPrice: Option<real>, base: real, settlement: Option<(int, int, int)>,
                                      paid: seq<Cash>, ignored: seq<Action>)
    requires Priced(p) && CheckedThrough(p, paid, ignored) && EndsIn(p, exitPrice, settlement, base)
    ensures ResolvedTold(p, CashReturns.Value(p, exitPrice, base, settlement, paid, ignored))
  {
    ValueFields(p, exitPrice, base, settlement, paid, ignored);
    FieldsTell(p, base, paid, ignored, CashReturns.Value(p, exitPrice, base, settlement, paid, ignored));
  }

  lemma {:induction false} ValueFields(p: Path, exitPrice: Option<real>, base: real,
                                       settlement: Option<(int, int, int)>, paid: seq<Cash>, ignored: seq<Action>)
    requires Priced(p)
    ensures var r := CashReturns.Value(p, exitPrice, base, settlement, paid, ignored);
      && r.Resolved? && r.entryPrice == p.close.at[p.entry] && r.distributions == paid && r.cashTotal == CashTotal(paid)
      && r.terminalValue - r.cashTotal == base && Grows(r.entryPrice, r.grossReturn, r.terminalValue)
      && DiagnosticIs(p, r.diagnostic) && r.exitPrice == exitPrice && r.settlement == settlement && r.ignored == ignored
  {
    DiagnosticTells(p);
    Ratio(base + CashTotal(paid), p.close.at[p.entry]);
  }

  lemma {:induction false} FieldsTell(p: Path, base: real, paid: seq<Cash>, ignored: seq<Action>, r: Result)
    requires Priced(p) && CheckedThrough(p, paid, ignored) && r.Resolved?
    requires r.entryPrice == p.close.at[p.entry] && r.distributions == paid && r.cashTotal == CashTotal(paid)
    requires r.terminalValue - r.cashTotal == base && Grows(r.entryPrice, r.grossReturn, r.terminalValue)
    requires DiagnosticIs(p, r.diagnostic) && r.ignored == ignored && EndsIn(p, r.exitPrice, r.settlement, base)
    ensures ResolvedTold(p, r)
  {
  }

  lemma {:induction false} AtExitTells(p: Path, paid: seq<Cash>, ignored: seq<Action>)
    requires Priced(p) && CheckedThrough(p, paid, ignored) && !NeedsCash(p)
    ensures EndTold(p, AtExit(p, paid, ignored))
  {
    DiagnosticTells(p);
    if p.exit in p.close.at { ValueTells(p, ExitPrice(p), p.close.at[p.exit], None, paid, ignored); }
  }

  lemma CashTells(v: Value, x: real)
    ensures CashIs(v, x) <==> Number(v) == Some(x) && x > 0.0
  {
  }

  lemma {:induction false} SettledTells(p: Path, finalDay: int, paid: seq<Cash>, ignored: seq<Action>)
    requires Priced(p) && CheckedThrough(p, paid, ignored) && NeedsCash(p) && p.lifecycle.finalDay == Some(finalDay)
    ensures EndTold(p, Settled(p, Filter(p.settlements, Matching(p, finalDay)), finalDay, paid, ignored))
  {
    var matches := Filter(p.settlements, Matching(p, finalDay));
    DiagnosticTells(p);
    SettlementTells(p, finalDay);
    if |matches| == 1 {
      var i :| 0 <= i < |p.settlements| && OnlySettlement(p, i);
      OneSettlementTells(p, finalDay, i, paid, ignored);
    }
  }

  lemma {:induction false} OneSettlementTells(p: Path, finalDay: int, i: nat, paid: seq<Cash>, ignored: seq<Action>)
    requires Priced(p) && CheckedThrough(p, paid, ignored) && NeedsCash(p) && p.lifecycle.finalDay == Some(finalDay)
    requires i < |p.settlements| && OnlySettlement(p, i)
    ensures EndTold(p, Settled(p, [p.settlements[i]], finalDay, paid, ignored))
  {
    var s := p.settlements[i];
    DiagnosticTells(p);
    if s.day.Some? && s.day.value <= p.exit && Number(s.cash).Some? && Number(s.cash).value > 0.0 {
      CashTells(s.cash, Number(s.cash).value);
      ValueTells(p, None, Number(s.cash).value, Some((p.lifecycle.permaticker, finalDay, s.day.value)), paid, ignored);
    }
  }

  /** What a path is told to be once every ex-date is checked. */
  lemma {:induction false} EndTells(p: Path, finalDay: int)
    requires Priced(p) && p.lifecycle.finalDay == Some(finalDay) && p.lifecycle.validated && p.currency == "USD"
    requires AllUnderstood(p) && AllChecked(p, Held(p)).Going?
    ensures EndTold(p, PrimaryEnd(p, Held(p), finalDay, AllChecked(p, Held(p)).paid))
    ensures EndTold(p, ReferenceEnd(p, Held(p), finalDay, AllChecked(p, Held(p)).paid))
  {
    var paid, ignored := AllChecked(p, Held(p)).paid, Ignored(Held(p));
    ProgressTells(p);
    NeedTells(p, finalDay);
    AcquiredTells(p);
    TotalPaid(p);
    if NeedsCash(p) { SettledTells(p, finalDay, paid, ignored); } else { AtExitTells(p, paid, ignored); }
  }

  /** Why a path is refused. The first implementation looks at the arguments, at the delisting flag, and for a
      settlement row without a readable last day; the second meets a bad dividend while it sorts the actions. */
  ghost predicate RefusalTold(p: Path, fault: Fault, first: bool)
    requires WellPriced(p)
  {
    match fault
    case BadArguments => first && (p.entry >= p.exit || p.absolute < 0.0 || p.relative < 0.0)
    case NotUsd => first && p.currency != "USD"
    case EntryUnpriced => p.entry !in p.close.at
    case BadDelistingStatus => first && p.lifecycle.isDelisted != "N" && p.lifecycle.isDelisted != "Y"
    case BadPermaticker => p.lifecycle.permaticker <= 0
    case BadFinalDay => p.lifecycle.finalDay.None?
    case BadDividend => exists a | a in p.actions ::
        && Pays(p, a) && !(WorthOf(a) > 0.0)
        && ((AllUnderstood(p) && p.entry in p.close.at && exists before :: Booked(p, before, a.day))
            || (!first && forall b | b in p.actions && HeldOver(p, b) && !Understood(b.kind) :: ComesFirst(a, b)))
    case BadSettlementDate =>
      && NeedsCash(p)
      && ((first && exists i | 0 <= i < |p.settlements| :: Unreadable(p, p.settlements[i]))
          || exists i | 0 <= i < |p.settlements| :: OnlySettlement(p, i) && p.settlements[i].day.None?)
    case BadTerminalCash => NeedsCash(p) && exists i | 0 <= i < |p.settlements| ::
        && OnlySettlement(p, i) && p.settlements[i].day.Some? && p.settlements[i].day.value <= p.exit
        && !NumberPositive(p.settlements[i].cash)
  }

  predicate Unreadable(p: Path, s: Settlement) {
    s.ticker == p.ticker && s.permaticker == p.lifecycle.permaticker && s.lastPriceDay.None?
  }

  predicate NumberPositive(v: Value) { (v.Float? && v.number > 0.0) || (v.Whole? && v.whole > 0) }

  lemma {:induction false} SettlementRefused(p: Path, finalDay: int, paid: seq<Cash>, first: bool)
    requires Priced(p) && p.lifecycle.finalDay == Some(finalDay) && NeedsCash(p)
    ensures var r := Settled(p, Filter(p.settlements, Matching(p, finalDay)), finalDay, paid, Ignored(Held(p)));
      r.Raised? ==> RefusalTold(p, r.fault, first)
  {
    SettlementTells(p, finalDay);
  }

  lemma {:induction false} EndRefused(p: Path, finalDay: int, paid: seq<Cash>)
    requires Priced(p) && p.lifecycle.finalDay == Some(finalDay)
    ensures var r := PrimaryEnd(p, Held(p), finalDay, paid); r.Raised? ==> RefusalTold(p, r.fault, true)
    ensures var r := ReferenceEnd(p, Held(p), finalDay, paid); r.Raised? ==> RefusalTold(p, r.fault, false)
  {
    NeedTells(p, finalDay);
    if NeedsCash(p) {
      SettlementRefused(p, finalDay, paid, true);
      SettlementRefused(p, finalDay, paid, false);
    }
  }

  lemma {:induction false} EarlyTells(p: Path)
    requires EarlyRefusal(Held(p))
    ensures exists a | a in p.actions :: Pays(p, a) && !(WorthOf(a) > 0.0)
              && forall b | b in p.actions && HeldOver(p, b) && !Understood(b.kind) :: ComesFirst(a, b)
  {
    var held := Held(p);
    var i :| 0 <= i < StopAt(held) && Unpaid(held[i]);
    var a := held[i];
    ActionsAreOrdered();
    SortSorts(Filter(p.actions, HeldBy(p)), ActionLe);
    HeldTells(p, a);
    WorthTells(a);
    forall b | b in p.actions && HeldOver(p, b) && !Understood(b.kind) ensures ComesFirst(a, b) {
      HeldTells(p, b);
      KindTells(b.kind);
      var j :| 0 <= j < |held| && held[j] == b;
      OrderTells(a, b);
    }
  }

  /** The three ways the ex-dates can end, for a path whose actions are all understood. */
  lemma {:induction false} DatesTell(p: Path)
    requires Priced(p) && p.lifecycle.validated && AllUnderstood(p)
    ensures match AllChecked(p, Held(p))
      case Going(paid) => true
      case Stopped(reason, paid) => EndTold(p, Unsettled(p, reason, ExitPrice(p), paid, Ignored(Held(p))))
      case Refused => RefusalTold(p, BadDividend, true) && RefusalTold(p, BadDividend, false)
  {
    ProgressTells(p);
    DiagnosticTells(p);
    AcquiredTells(p);
    match AllChecked(p, Held(p))
    case Going(_) =>
    case Stopped(reason, paid) => StopReasons(p, reason, paid);
    case Refused =>
  }

  lemma StopReasons(p: Path, reason: Reason, paid: seq<Cash>)
    requires StoppedTold(p, reason, paid)
    ensures reason == DividendDateUnpriced || reason == NoPriorPrices || reason == AmountMismatch
  {
  }

  lemma {:induction false} UnknownTells(p: Path)
    requires Priced(p) && p.lifecycle.validated && StopAt(Held(p)) < |Held(p)|
    ensures var held := Held(p);
      EndTold(p, Unsettled(p, ActionTermsUnresolved(held[StopAt(held)].kind), ExitPrice(p), [],
                           Ignored(held[..StopAt(held)])))
  {
    StopTold(p);
    DiagnosticTells(p);
  }

  /** The first implementation's answer is what it says. */
  lemma {:induction false} PrimaryTells(p: Path)
    requires WellPriced(p)
    ensures var r := Primary(p); if r.Raised? then RefusalTold(p, r.fault, true) else Priced(p) && EndTold(p, r)
  {
    if Priced(p) {
      DiagnosticTells(p);
      UnderstoodTells(p);
      if p.lifecycle.validated && p.lifecycle.finalDay.Some? && p.currency == "USD" {
        var finalDay := p.lifecycle.finalDay.value;
        if StopAt(Held(p)) < |Held(p)| {
          UnknownTells(p);
        } else {
          DatesTell(p);
          if AllChecked(p, Held(p)).Going? {
            EndTells(p, finalDay);
            EndRefused(p, finalDay, AllChecked(p, Held(p)).paid);
          }
        }
      }
    }
  }

  /** And so is the second's. */
  lemma {:induction false} ReferenceTells(p: Path)
    requires WellPriced(p)
    ensures var r := Reference(p); if r.Raised? then RefusalTold(p, r.fault, false) else Priced(p) && EndTold(p, r)
  {
    if Priced(p) {
      DiagnosticTells(p);
      UnderstoodTells(p);
      if p.lifecycle.validated && p.lifecycle.finalDay.Some? && p.currency == "USD" {
        var finalDay := p.lifecycle.finalDay.value;
        if EarlyRefusal(Held(p)) {
          EarlyTells(p);
        } else if StopAt(Held(p)) < |Held(p)| {
          UnknownTells(p);
        } else {
          DatesTell(p);
          if AllChecked(p, Held(p)).Going? {
            EndTells(p, finalDay);
            EndRefused(p, finalDay, AllChecked(p, Held(p)).paid);
          }
        }
      }
    }
  }
}
