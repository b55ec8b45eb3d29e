/** What a resolved cash return says: the value received, every dividend once, every ex-date checked once. */
module CashLaws {
  import opened Optional
  import opened Ordering
  import opened Documents
  import opened Grouping
  import opened Rounding
  import opened CashPaths
  import opened CashReturns

  // ----- the entries and the dividends -----

  function ActionsOf(paid: seq<Cash>): (r: seq<Action>)
    ensures |r| == |paid| && forall i | 0 <= i < |paid| :: r[i] == paid[i].action
  {
    seq(|paid|, i requires 0 <= i < |paid| => paid[i].action)
  }

  /** Every entry carries the amount of its own action. */
  predicate Faithful(paid: seq<Cash>) {
    forall i | 0 <= i < |paid| :: Amount(paid[i].action) == Some(paid[i].amount)
  }

  /** The groups of some days, one after another. */
  function Concat(dividends: seq<Action>, days: seq<int>, n: nat): seq<Action>
    requires n <= |days|
  {
    if n == 0 then [] else Concat(dividends, days, n - 1) + Members(dividends, DayOf(), days[n - 1])
  }

  lemma {:induction false} CheckedEntries(p: Path, dividends: seq<Action>, days: seq<int>, n: nat)
    requires Priced(p) && n <= |days| && CheckDays(p, dividends, days, n).Going?
    ensures var paid := CheckDays(p, dividends, days, n).paid;
      ActionsOf(paid) == Concat(dividends, days, n) && Faithful(paid)
  {
    if n > 0 {
      CheckedEntries(p, dividends, days, n - 1);
      var before := CheckDays(p, dividends, days, n - 1).paid;
      var group := Members(dividends, DayOf(), days[n - 1]);
      var v := DayVerdict(p, days[n - 1], SumOf(Amounts(group)));
      EntriesAreFaithful(before, group, v);
    }
  }

  lemma EntriesAreFaithful(before: seq<Cash>, group: seq<Action>, v: Verdict)
    requires Faithful(before) && AllPaid(group) && v.Passes?
    ensures Faithful(before + Entries(group, v))
    ensures ActionsOf(before + Entries(group, v)) == ActionsOf(before) + group
  {
    var after := before + Entries(group, v);
    forall i | 0 <= i < |after| ensures Amount(after[i].action) == Some(after[i].amount) {
      if i >= |before| { assert after[i] == Entries(group, v)[i - |before|]; }
    }
  }

  // ----- a grouping takes every row once -----

  lemma {:induction false} ConcatCount(rows: seq<Action>, days: seq<int>, n: nat, a: Action)
    requires n <= |days| && Distinct(days)
    ensures multiset(Concat(rows, days, n))[a] == if a.day in days[..n] then multiset(rows)[a] else 0
  {
    if n > 0 {
      var m := n - 1;
      ConcatCount(rows, days, m, a);
      MembersTally(rows, DayOf(), days[m], a);
      CountOfBoth(Concat(rows, days, m), Members(rows, DayOf(), days[m]), a);
      NextDay(days, m, a.day);
    }
  }

  lemma CountOfBoth(before: seq<Action>, group: seq<Action>, a: Action)
    ensures multiset(before + group)[a] == multiset(before)[a] + multiset(group)[a]
  {}

  /** Among distinct days the next one is new. */
  lemma NextDay(days: seq<int>, m: nat, day: int)
    requires m < |days| && Distinct(days)
    ensures day in days[..m + 1] <==> day in days[..m] || day == days[m]
    ensures days[m] !in days[..m]
  {
    assert days[..m + 1] == days[..m] + [days[m]];
  }

  /** Day by day, every dividend is taken exactly once. */
  lemma EveryDividendOnce(rows: seq<Action>)
    ensures var days := ExDates(rows); multiset(Concat(rows, days, |days|)) == multiset(rows)
  {
    var days := ExDates(rows);
    assert TotalOrder(IntLe);
    KeysAreDistinct(rows, DayOf());
    DistinctSort(KeyList(rows, DayOf()), IntLe);
    assert days[..|days|] == days;
    forall a ensures multiset(Concat(rows, days, |days|))[a] == multiset(rows)[a] {
      ConcatCount(rows, days, |days|, a);
      if a in rows { EveryDayIsListed(rows, a); } else { assert a !in multiset(rows); }
    }
  }

  // ----- totals -----

  lemma {:induction false} SumOfAppend(a: seq<real>, b: seq<real>)
    ensures SumOf(a + b) == SumOf(a) + SumOf(b)
  {
    if b == [] { assert a + b == a; } else {
      assert (a + b)[..|a + b| - 1] == a + b[..|b| - 1];
      SumOfAppend(a, b[..|b| - 1]);
    }
  }

  lemma {:induction false} TotalIsSum(paid: seq<Cash>)
    requires Faithful(paid)
    ensures AllPaid(ActionsOf(paid)) && CashTotal(paid) == SumOf(Amounts(ActionsOf(paid)))
  {
    if paid != [] {
      var front := paid[..|paid| - 1];
      TotalIsSum(front);
      assert ActionsOf(paid)[..|paid| - 1] == ActionsOf(front);
      assert Amounts(ActionsOf(paid))[..|paid| - 1] == Amounts(ActionsOf(front));
    }
  }

  /** Numbers add up to the same total in any order. */
  lemma {:induction false} SumIgnoresOrder(a: seq<real>, b: seq<real>)
    requires multiset(a) == multiset(b)
    ensures SumOf(a) == SumOf(b)
  {
    assert |a| == |multiset(a)| == |multiset(b)| == |b|;
    if a != [] {
      var front, last := a[..|a| - 1], a[|a| - 1];
      assert a == front + [last];
      assert last in multiset(b);
      var j :| 0 <= j < |b| && b[j] == last;
      TakenOut(b, j);
      SumIgnoresOrder(front, b[..j] + b[j + 1..]);
      SumWithout(b, j);
    }
  }

  lemma SumOfNext(s: seq<real>, x: real)
    ensures SumOf(s + [x]) == SumOf(s) + x
  {
    assert (s + [x])[..|s|] == s;
  }

  lemma {:induction false} SumWithout(b: seq<real>, j: nat)
    requires j < |b|
    ensures SumOf(b) == SumOf(b[..j] + b[j + 1..]) + b[j]
  {
    var before, x, after := b[..j], b[j], b[j + 1..];
    assert b == (before + [x]) + after;
    SumAround(before, x, after);
  }

  lemma {:induction false} SumAround(before: seq<real>, x: real, after: seq<real>)
    ensures SumOf((before + [x]) + after) == SumOf(before + after) + x
  {
    SumOfAppend(before + [x], after);
    SumOfNext(before, x);
    SumOfAppend(before, after);
  }

  function AmountOrZero(a: Action): real { if Amount(a).Some? then Amount(a).value else 0.0 }

  lemma PaidIgnoresOrder(a: seq<Action>, b: seq<Action>)
    requires multiset(a) == multiset(b) && AllPaid(a)
    ensures AllPaid(b)
  {
    forall i | 0 <= i < |b| ensures Amount(b[i]).Some? {
      assert b[i] in multiset(a);
      assert b[i] in a;
    }
  }

  lemma TotalIgnoresOrder(a: seq<Action>, b: seq<Action>)
    requires multiset(a) == multiset(b) && AllPaid(a)
    ensures AllPaid(b) && SumOf(Amounts(a)) == SumOf(Amounts(b))
  {
    PaidIgnoresOrder(a, b);
    MappedKeepsMultiset(a, b, AmountOrZero);
    assert Amounts(a) == Mapped(a, AmountOrZero) && Amounts(b) == Mapped(b, AmountOrZero);
    SumIgnoresOrder(Amounts(a), Amounts(b));
  }

  // ----- what a resolved path says -----

  /** The price the holder ends with: the exit close, or the settlement cash of a matching settlement. */
  ghost predicate EndsWith(p: Path, finalDay: int, base: real) {
    || (p.exit in p.close.at && base == p.close.at[p.exit])
    || exists s :: s in p.settlements && Matches(p, s, finalDay) && Number(s.cash) == Some(base)
  }

  /** The amounts and the price a resolved result is made of. */
  ghost predicate Resolves(p: Path, finalDay: int, paid: seq<Cash>, r: Result)
    requires Priced(p)
  {
    && r.Resolved? && r.distributions == paid && r.cashTotal == CashTotal(paid)
    && EndsWith(p, finalDay, r.terminalValue - r.cashTotal)
    && r.entryPrice == p.close.at[p.entry] && r.grossReturn == r.terminalValue / p.close.at[p.entry] - 1.0
  }

  lemma EndResolves(p: Path, held: seq<Action>, finalDay: int, paid: seq<Cash>)
    requires Priced(p) && PrimaryEnd(p, held, finalDay, paid).Resolved?
    ensures Resolves(p, finalDay, paid, PrimaryEnd(p, held, finalDay, paid))
  {
    if NeedsSettlement(p, held, finalDay) {
      var matches := Filter(p.settlements, Matching(p, finalDay));
      FilterKeeps(p.settlements, Matching(p, finalDay), matches[0]);
    }
  }

  lemma PaidResolves(p: Path, held: seq<Action>, finalDay: int)
    requires Priced(p) && PrimaryPaid(p, held, finalDay).Resolved?
    ensures StopAt(held) == |held| && AllChecked(p, held).Going?
    ensures Resolves(p, finalDay, AllChecked(p, held).paid, PrimaryPaid(p, held, finalDay))
  {
    EndResolves(p, held, finalDay, AllChecked(p, held).paid);
  }

  /** Once checked, the entries are the dividends, each once, and their total is the dividends' total. */
  lemma CheckedTotal(p: Path, dividends: seq<Action>)
    requires Priced(p) && CheckDays(p, dividends, ExDates(dividends), |ExDates(dividends)|).Going?
    ensures var paid := CheckDays(p, dividends, ExDates(dividends), |ExDates(dividends)|).paid;
      multiset(ActionsOf(paid)) == multiset(dividends) && AllPaid(dividends)
      && CashTotal(paid) == SumOf(Amounts(dividends))
  {
    var days := ExDates(dividends);
    var paid := CheckDays(p, dividends, days, |days|).paid;
    CheckedEntries(p, dividends, days, |days|);
    EveryDividendOnce(dividends);
    TotalIsSum(paid);
    TotalIgnoresOrder(ActionsOf(paid), dividends);
  }

  lemma ResolvedIsPaid(p: Path)
    requires WellPriced(p) && Primary(p).Resolved?
    ensures Priced(p) && p.lifecycle.finalDay.Some?
    ensures Primary(p) == PrimaryPaid(p, Held(p), p.lifecycle.finalDay.value)
  {}

  /** The value law: a resolved return is the exit price or settlement cash plus every held dividend, each counted
      once, over the entry price. */
  lemma ResolvedValue(p: Path)
    requires WellPriced(p) && Primary(p).Resolved?
    ensures Priced(p) && p.lifecycle.finalDay.Some?
    ensures ReceivesAll(p, Dividends(Held(p)), p.lifecycle.finalDay.value, Primary(p))
  {
    ResolvedIsPaid(p);
    PaidReceivesAll(p, Held(p), p.lifecycle.finalDay.value);
  }

  lemma PaidReceivesAll(p: Path, held: seq<Action>, finalDay: int)
    requires Priced(p) && PrimaryPaid(p, held, finalDay).Resolved?
    ensures ReceivesAll(p, Dividends(held), finalDay, PrimaryPaid(p, held, finalDay))
  {
    PaidResolves(p, held, finalDay);
    CheckedTotal(p, Dividends(held));
    TotalsAreOne(p, Dividends(held), finalDay, AllChecked(p, held).paid, PrimaryPaid(p, held, finalDay));
  }

  lemma TotalsAreOne(p: Path, dividends: seq<Action>, finalDay: int, paid: seq<Cash>, r: Result)
    requires Priced(p) && Resolves(p, finalDay, paid, r)
    requires multiset(ActionsOf(paid)) == multiset(dividends) && AllPaid(dividends)
    requires CashTotal(paid) == SumOf(Amounts(dividends))
    ensures ReceivesAll(p, dividends, finalDay, r)
  {}

  ghost predicate ReceivesAll(p: Path, dividends: seq<Action>, finalDay: int, r: Result)
    requires Priced(p)
  {
    && r.Resolved? && multiset(ActionsOf(r.distributions)) == multiset(dividends) && AllPaid(dividends)
    && EndsWith(p, finalDay, r.terminalValue - SumOf(Amounts(dividends)))
    && r.grossReturn == r.terminalValue / p.close.at[p.entry] - 1.0
  }

  /** The total paid on one ex-date meets its adjustment check. */
  ghost predicate DateHolds(p: Path, dividends: seq<Action>, day: int)
    requires Priced(p)
  {
    var group := Members(dividends, DayOf(), day);
    && AllPaid(group) && Evidence(p, day).None?
    && var total, implied := SumOf(Amounts(group)), Implied(p, Previous(p, day), day);
       Abs(implied - total) <= Allowance(p, implied, total)
  }

  lemma {:induction false} CheckedDaysHold(p: Path, dividends: seq<Action>, days: seq<int>, n: nat, i: nat)
    requires Priced(p) && i < n <= |days| && CheckDays(p, dividends, days, n).Going?
    ensures DateHolds(p, dividends, days[i])
  {
    if i < n - 1 { CheckedDaysHold(p, dividends, days, n - 1, i); }
  }

  lemma EveryDateHolds(p: Path, dividends: seq<Action>, a: Action)
    requires Priced(p) && CheckDays(p, dividends, ExDates(dividends), |ExDates(dividends)|).Going? && a in dividends
    ensures DateHolds(p, dividends, a.day) && Distinct(ExDates(dividends))
  {
    var days := ExDates(dividends);
    EveryDayIsListed(dividends, a);
    var i :| 0 <= i < |days| && days[i] == a.day;
    CheckedDaysHold(p, dividends, days, |days|, i);
    assert TotalOrder(IntLe);
    KeysAreDistinct(dividends, DayOf());
    DistinctSort(KeyList(dividends, DayOf()), IntLe);
  }

  /** In a resolved return every ex-date with a dividend passed its check, as one total; the ex-dates are listed
      without repeats, so each is checked once. */
  lemma EveryExDateChecked(p: Path, a: Action)
    requires WellPriced(p) && Primary(p).Resolved? && a in Dividends(Held(p))
    ensures Priced(p) && DateHolds(p, Dividends(Held(p)), a.day) && Distinct(ExDates(Dividends(Held(p))))
  {
    ResolvedIsPaid(p);
    PaidResolves(p, Held(p), p.lifecycle.finalDay.value);
    EveryDateHolds(p, Dividends(Held(p)), a);
  }

  /** Every entry shows the diagnosis of its own ex-date. */
  ghost predicate ShowsVerdict(p: Path, dividends: seq<Action>, c: Cash)
    requires Priced(p)
  {
    var group := Members(dividends, DayOf(), c.action.day);
    AllPaid(group) && DayVerdict(p, c.action.day, SumOf(Amounts(group)))
        == Passes(c.previous, c.implied, c.error, c.allowed)
  }

  lemma {:induction false} EntriesShowVerdicts(p: Path, dividends: seq<Action>, days: seq<int>, n: nat, i: nat)
    requires Priced(p) && n <= |days| && CheckDays(p, dividends, days, n).Going?
    requires i < |CheckDays(p, dividends, days, n).paid|
    ensures ShowsVerdict(p, dividends, CheckDays(p, dividends, days, n).paid[i])
  {
    var before := CheckDays(p, dividends, days, n - 1).paid;
    if i < |before| {
      EntriesShowVerdicts(p, dividends, days, n - 1, i);
    } else {
      MembersHaveKey(dividends, DayOf(), days[n - 1], i - |before|);
    }
  }
}
