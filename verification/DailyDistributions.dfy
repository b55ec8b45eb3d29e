/** The third look at the dividends: the event ledger checks them against the previous global session. */
module DailyDistributions {
  import opened Optional
  import opened Ordering
  import opened Documents
  import opened Grouping
  import opened Rounding
  import opened CashPaths
  import opened CashReturns
  import opened CashLaws
  import Books

  /** One ticker's side of the daily inputs: the global sessions and its bars of close and adjusted close. */
  datatype Daily = Daily(sessions: seq<int>, bars: map<int, (real, real)>, absolute: real, relative: real)

  ghost predicate DailyHolds(d: Daily) {
    (forall i, j | 0 <= i < j < |d.sessions| :: d.sessions[i] < d.sessions[j])
    && forall day | day in d.bars :: d.bars[day].0 > 0.0 && d.bars[day].1 > 0.0
  }

  datatype Diagnosis = Diagnosis(previous: int, implied: real, error: real, allowed: real)

  /** The check of one ex-date's total against the session before it. */
  function DailyVerdict(d: Daily, day: int, total: real): Option<Diagnosis>
    requires DailyHolds(d)
  {
    match Books.SessionIndex(d.sessions, day)
    case None => None
    case Some(i) =>
      if i == 0 || d.sessions[i - 1] !in d.bars || day !in d.bars then None
      else
        var prior := d.sessions[i - 1];
        var implied := ImpliedBy(d.bars[prior].0, d.bars[prior].1, d.bars[day].0, d.bars[day].1);
        var error := Abs(implied - total);
        var allowed := AllowedError(d.absolute, d.relative, implied, total);
        if error > allowed then None else Some(Diagnosis(prior, implied, error, allowed))
  }

  // ----- the previous session is the latest priced day -----

  /** The daily inputs show the same prices as the path, on the days both of its series have. */
  ghost predicate SameBars(p: Path, d: Daily) {
    && (forall day :: day in d.bars <==> day in p.close.at && day in p.adjusted.at)
    && (forall day | day in d.bars :: d.bars[day] == (p.close.at[day], p.adjusted.at[day]))
    && d.absolute == p.absolute && d.relative == p.relative
  }

  /** Where the session before an ex-date is priced, it is the latest priced day before it exactly when no other
      day between the two is priced. */
  lemma PriorSessionIsLatest(p: Path, d: Daily, i: nat)
    requires Priced(p) && DailyHolds(d) && SameBars(p, d)
    requires 0 < i < |d.sessions| && d.sessions[i - 1] in d.bars && d.sessions[i] in d.bars
    ensures Evidence(p, d.sessions[i]).None?
    ensures Previous(p, d.sessions[i]) == d.sessions[i - 1]
      <==> forall day | day in d.bars :: !(d.sessions[i - 1] < day < d.sessions[i])
  {
    var day, prior := d.sessions[i], d.sessions[i - 1];
    var days := PriorDays(p.close.days, p.adjusted, day);
    FilterKeeps(p.close.days, PricedBefore(p.adjusted, day), prior);
    assert prior in days;
    var latest := Greatest(days);
    FilterKeeps(p.close.days, PricedBefore(p.adjusted, day), latest);
    assert latest in d.bars && prior <= latest < day;
    forall x | x in d.bars && prior < x < day ensures x in days {
      FilterKeeps(p.close.days, PricedBefore(p.adjusted, day), x);
    }
  }

  /** Every session of the holding interval is priced, and only sessions are. */
  ghost predicate FullyPriced(p: Path, d: Daily) {
    && p.entry in d.sessions
    && (forall i | 0 <= i < |d.sessions| && p.entry <= d.sessions[i] <= p.exit :: d.sessions[i] in d.bars)
    && (forall day | day in d.bars :: day in d.sessions)
  }

  /** Then the two ways of finding the day before an ex-date, and so the implied dividend, the error and the
      allowance, are the same. */
  lemma ChecksCoincide(p: Path, d: Daily, day: int, total: real)
    requires Priced(p) && DailyHolds(d) && SameBars(p, d) && FullyPriced(p, d)
    requires day in d.sessions && p.entry < day <= p.exit
    ensures DailyVerdict(d, day, total).None? <==> DayVerdict(p, day, total).Fails?
    ensures DailyVerdict(d, day, total).Some? ==>
      var v, w := DayVerdict(p, day, total), DailyVerdict(d, day, total).value;
      v == Passes(w.previous, w.implied, w.error, w.allowed)
  {
    var i := Books.SessionIndex(d.sessions, day).value;
    LatestIsSessionBefore(p, d, i);
  }

  lemma EarlierComesFirst(d: Daily, e: nat, i: nat)
    requires DailyHolds(d) && e < |d.sessions| && i < |d.sessions| && d.sessions[e] < d.sessions[i]
    ensures e < i
  {}

  lemma LatestIsSessionBefore(p: Path, d: Daily, i: nat)
    requires Priced(p) && DailyHolds(d) && SameBars(p, d) && FullyPriced(p, d)
    requires i < |d.sessions| && p.entry < d.sessions[i] <= p.exit
    ensures 0 < i && d.sessions[i - 1] in d.bars && d.sessions[i] in d.bars
    ensures Evidence(p, d.sessions[i]).None? && Previous(p, d.sessions[i]) == d.sessions[i - 1]
  {
    var e := Books.SessionIndex(d.sessions, p.entry).value;
    EarlierComesFirst(d, e, i);
    assert e == i - 1 || d.sessions[e] < d.sessions[i - 1];
    assert d.sessions[i - 1] < d.sessions[i];
    forall x | x in d.bars ensures !(d.sessions[i - 1] < x < d.sessions[i]) {
      var j :| 0 <= j < |d.sessions| && d.sessions[j] == x;
      assert j < i - 1 ==> d.sessions[j] < d.sessions[i - 1];
      assert j > i ==> d.sessions[i] < d.sessions[j];
    }
    PriorSessionIsLatest(p, d, i);
  }

  // ----- the expected distributions -----

  /** The key of an action: everything but its value. */
  function KeyOfAction(a: Action): Action { a.(value := Null) }

  /** An application as it is compared: its day, its amount rounded to money, its key. */
  function Written(a: Action): (int, real, Action) { (a.day, Money(AmountOrZero(a)), KeyOfAction(a)) }

  function WrittenCash(c: Cash): (int, real, Action) { (c.action.day, Money(c.amount), KeyOfAction(c.action)) }

  predicate ReadableOne(a: Action) { IsIgnored(a.kind) || (IsDividend(a.kind) && Amount(a).Some?) }

  predicate Readable(held: seq<Action>) { forall i | 0 <= i < |held| :: ReadableOne(held[i]) }

  ghost predicate DatesPass(d: Daily, dividends: seq<Action>, days: seq<int>, n: nat)
    requires DailyHolds(d) && n <= |days|
  {
    forall i | 0 <= i < n :: DatePasses(d, dividends, days[i])
  }

  predicate DatePasses(d: Daily, dividends: seq<Action>, day: int)
    requires DailyHolds(d)
  {
    AllPaid(Members(dividends, DayOf(), day))
        && DailyVerdict(d, day, SumOf(Amounts(Members(dividends, DayOf(), day)))).Some?
  }

  const SOURCE_TOLERANCE := 0.000000000001

  /** A frozen distribution shows the diagnosis of its ex-date, to the source tolerance. */
  predicate DiagnosisMatches(c: Cash, w: Diagnosis) {
    && c.previous == w.previous
    && Abs(c.implied - w.implied) <= SOURCE_TOLERANCE
    && Abs(c.error - w.error) <= SOURCE_TOLERANCE
    && Abs(c.allowed - w.allowed) <= SOURCE_TOLERANCE
  }

  predicate FrozenMatches(d: Daily, dividends: seq<Action>, c: Cash)
    requires DailyHolds(d)
  {
    DatePasses(d, dividends, c.action.day)
    && DiagnosisMatches(c, DailyVerdict(d, c.action.day,
                                        SumOf(Amounts(Members(dividends, DayOf(), c.action.day)))).value)
  }

  /** What the event ledger asks of the held actions and the frozen distributions. */
  ghost predicate Expected(d: Daily, held: seq<Action>, frozen: seq<Cash>)
    requires DailyHolds(d)
  {
    && Readable(held)
    && DatesPass(d, Dividends(held), ExDates(Dividends(held)), |ExDates(Dividends(held))|)
    && multiset(Mapped(Dividends(held), Written)) == multiset(Mapped(frozen, WrittenCash))
    && forall i | 0 <= i < |frozen| :: FrozenMatches(d, Dividends(held), frozen[i])
  }

  // ----- the loops -----

  /** The first loop: every held action must be readable. */
  method CandidatesByDate(held: seq<Action>) returns (ok: bool, groups: map<int, seq<Action>>, order: seq<int>)
    ensures ok <==> Readable(held)
    ensures ok ==> order == KeyList(Dividends(held), DayOf()) && Files(groups, Dividends(held), DayOf())
  {
    groups, order := map[], [];
    for n := 0 to |held|
      invariant Readable(held[..n]) && FiledTo(held, n, groups, order)
    {
      var a := held[n];
      ReadableNext(held, n);
      FiledStep(held, n, groups, order);
      if !IsIgnored(a.kind) {
        if !IsDividend(a.kind) || Amount(a).None? {
          return false, groups, order;
        }
        groups, order := Placed(groups, a.day, a), if a.day in order then order else order + [a.day];
      }
    }
    assert held[..|held|] == held;
    ok := true;
  }

  ghost predicate FiledTo(held: seq<Action>, n: nat, groups: map<int, seq<Action>>, order: seq<int>)
    requires n <= |held|
  {
    Filed(Dividends(held[..n]), groups, order)
  }

  lemma ReadableNext(held: seq<Action>, n: nat)
    requires n < |held|
    ensures Readable(held[..n + 1]) <==> Readable(held[..n]) && ReadableOne(held[n])
    ensures Readable(held) ==> ReadableOne(held[n])
  {
  }

  lemma FiledStep(held: seq<Action>, n: nat, groups: map<int, seq<Action>>, order: seq<int>)
    requires n < |held| && FiledTo(held, n, groups, order)
    ensures var a := held[n];
            if IsDividend(a.kind)
            then FiledTo(held, n + 1, Placed(groups, a.day, a), if a.day in order then order else order + [a.day])
            else FiledTo(held, n + 1, groups, order)
    ensures IsDividend(held[n].kind) ==> !IsIgnored(held[n].kind)
  {
    DividendsNext(held, n);
    FiledNext(Dividends(held[..n]), groups, order, held[n]);
  }

  /** The dividends so far are filed by date, their dates listed in the order they came. */
  ghost predicate Filed(dividends: seq<Action>, groups: map<int, seq<Action>>, order: seq<int>) {
    order == KeyList(dividends, DayOf()) && Files(groups, dividends, DayOf())
  }

  lemma FiledNext(dividends: seq<Action>, groups: map<int, seq<Action>>, order: seq<int>, a: Action)
    requires Filed(dividends, groups, order)
    ensures Filed(dividends + [a], Placed(groups, a.day, a), if a.day in order then order else order + [a.day])
  {
    assert DayOf()(a) == a.day;
    PlacedFiles(groups, dividends, DayOf(), a);
    KeyListNext(dividends, DayOf(), a);
  }

  lemma DividendsNext(held: seq<Action>, n: nat)
    requires n < |held|
    ensures Dividends(held[..n + 1])
      == if IsDividend(held[n].kind) then Dividends(held[..n]) + [held[n]] else Dividends(held[..n])
    ensures IsDividend(held[n].kind) ==> !IsIgnored(held[n].kind)
    ensures DayOf()(held[n]) == held[n].day
  {
    FilterNext(held, n, KindDividend());
  }

  method CheckSessions(d: Daily, ghost dividends: seq<Action>, groups: map<int, seq<Action>>, order: seq<int>)
    returns (ok: bool)
    requires DailyHolds(d) && AllPaid(dividends)
    requires order == KeyList(dividends, DayOf()) && Files(groups, dividends, DayOf())
    ensures ok <==> DatesPass(d, dividends, ExDates(dividends), |ExDates(dividends)|)
  {
    var days := Sort(order, IntLe);
    for n := 0 to |days|
      invariant DatesPass(d, dividends, days, n)
    {
      ListedDay(dividends, groups, days, n);
      if DailyVerdict(d, days[n], SumOf(Amounts(groups[days[n]]))).None? {
        assert !DatePasses(d, dividends, days[n]);
        return false;
      }
    }
    ok := true;
  }

  lemma ListedDay(dividends: seq<Action>, groups: map<int, seq<Action>>, days: seq<int>, n: nat)
    requires AllPaid(dividends) && Files(groups, dividends, DayOf()) && days == ExDates(dividends) && n < |days|
    ensures days[n] in groups && groups[days[n]] == Members(dividends, DayOf(), days[n]) && AllPaid(groups[days[n]])
  {
    assert TotalOrder(IntLe);
    SortMembers(KeyList(dividends, DayOf()), IntLe, days[n]);
    FiledRows(groups, dividends, DayOf(), days[n]);
    GroupIsPaid(dividends, days[n]);
  }

  lemma ReadableIsPaid(held: seq<Action>)
    requires Readable(held)
    ensures AllPaid(Dividends(held))
  {
    var dividends := Dividends(held);
    forall i | 0 <= i < |dividends| ensures Amount(dividends[i]).Some? {
      FilterKeeps(held, KindDividend(), dividends[i]);
    }
  }

  /** `_expected_distributions`, after the interval has been selected: the dividends by date, or a refusal. */
  method ExpectedDistributions(d: Daily, held: seq<Action>, frozen: seq<Cash>)
    returns (r: Option<map<int, seq<Action>>>)
    requires DailyHolds(d)
    ensures r.Some? <==> Expected(d, held, frozen)
    ensures r.Some? ==> Files(r.value, Dividends(held), DayOf())
  {
    var readable, groups, order := CandidatesByDate(held);
    if !readable { return None; }
    ReadableIsPaid(held);
    var pass := CheckSessions(d, Dividends(held), groups, order);
    if !pass { return None; }
    if multiset(Mapped(Dividends(held), Written)) != multiset(Mapped(frozen, WrittenCash)) { return None; }
    var matches := CheckFrozen(d, Dividends(held), frozen);
    r := if matches then Some(groups) else None;
  }

  /** Every frozen distribution carries the diagnosis of its ex-date. */
  method CheckFrozen(d: Daily, dividends: seq<Action>, frozen: seq<Cash>) returns (ok: bool)
    requires DailyHolds(d)
    ensures ok <==> forall i | 0 <= i < |frozen| :: FrozenMatches(d, dividends, frozen[i])
  {
    for n := 0 to |frozen|
      invariant forall i | 0 <= i < n :: FrozenMatches(d, dividends, frozen[i])
    {
      if !FrozenMatches(d, dividends, frozen[n]) { return false; }
    }
    ok := true;
  }

  // ----- a resolved return passes -----

  lemma NothingUnread(held: seq<Action>, mine: seq<Action>)
    requires multiset(held) == multiset(mine)
    requires StopAt(mine) == |mine| && Terminals(mine) == [] && AllPaid(Dividends(mine))
    ensures Readable(held)
  {
    forall i | 0 <= i < |held| ensures ReadableOne(held[i]) {
      assert held[i] in multiset(mine);
      var j :| 0 <= j < |mine| && mine[j] == held[i];
      FilterKeeps(mine, KindTerminal(), held[i]);
      FilterKeeps(mine, KindDividend(), held[i]);
    }
  }

  /** One ex-date: the same total, whatever order the rows come in, passes both checks with the same diagnosis. */
  lemma DatePassesToo(p: Path, d: Daily, mine: seq<Action>, theirs: seq<Action>, a: Action)
    requires Priced(p) && DailyHolds(d) && SameBars(p, d) && FullyPriced(p, d)
    requires multiset(mine) == multiset(theirs) && DateHolds(p, mine, a.day)
    requires a.day in d.sessions && p.entry < a.day <= p.exit
    ensures DatePasses(d, theirs, a.day)
    ensures AllPaid(Members(mine, DayOf(), a.day))
    ensures var v := DayVerdict(p, a.day, SumOf(Amounts(Members(mine, DayOf(), a.day))));
      var w := DailyVerdict(d, a.day, SumOf(Amounts(Members(theirs, DayOf(), a.day)))).value;
      v == Passes(w.previous, w.implied, w.error, w.allowed)
  {
    MembersIgnoreOrder(mine, theirs, DayOf(), a.day);
    TotalIgnoresOrder(Members(mine, DayOf(), a.day), Members(theirs, DayOf(), a.day));
    ChecksCoincide(p, d, a.day, SumOf(Amounts(Members(mine, DayOf(), a.day))));
  }

  lemma SameWritings(mine: seq<Action>, theirs: seq<Action>, frozen: seq<Cash>)
    requires multiset(mine) == multiset(theirs) && multiset(ActionsOf(frozen)) == multiset(mine) && Faithful(frozen)
    ensures multiset(Mapped(theirs, Written)) == multiset(Mapped(frozen, WrittenCash))
  {
    assert Mapped(frozen, WrittenCash) == Mapped(ActionsOf(frozen), Written);
    MappedKeepsMultiset(ActionsOf(frozen), theirs, Written);
  }

  /** The same holding interval as both sides select it. */
  ghost predicate SameInterval(p: Path, d: Daily, held: seq<Action>) {
    && multiset(held) == multiset(Held(p))
    && forall a | a in held :: a.day in d.sessions && p.entry < a.day <= p.exit
  }

  /** The frozen distributions of a resolved return pass the event ledger's own reconstruction, whatever order its
      action rows come in. */
  lemma ResolvedPassesDaily(p: Path, d: Daily, held: seq<Action>)
    requires WellPriced(p) && Primary(p).Resolved? && Terminals(Held(p)) == []
    requires DailyHolds(d) && SameBars(p, d) && FullyPriced(p, d) && SameInterval(p, d, held)
    ensures Expected(d, held, Primary(p).distributions)
  {
    var mine := Held(p);
    ResolvedIsPaid(p);
    PaidResolves(p, mine, p.lifecycle.finalDay.value);
    CheckedTotal(p, Dividends(mine));
    NothingUnread(held, mine);
    FilterIgnoresOrder(mine, held, KindDividend());
    CheckedPassesDaily(p, d, Dividends(mine), Dividends(held), held);
  }

  lemma CheckedPassesDaily(p: Path, d: Daily, mine: seq<Action>, theirs: seq<Action>, held: seq<Action>)
    requires Priced(p) && DailyHolds(d) && SameBars(p, d) && FullyPriced(p, d)
    requires multiset(mine) == multiset(theirs) && theirs == Dividends(held) && Readable(held)
    requires forall a | a in held :: a.day in d.sessions && p.entry < a.day <= p.exit
    requires CheckDays(p, mine, ExDates(mine), |ExDates(mine)|).Going?
    ensures Expected(d, held, CheckDays(p, mine, ExDates(mine), |ExDates(mine)|).paid)
  {
    var days := ExDates(mine);
    var frozen := CheckDays(p, mine, days, |days|).paid;
    CheckedEntries(p, mine, days, |days|);
    EveryDividendOnce(mine);
    SameWritings(mine, theirs, frozen);
    forall i | 0 <= i < |ExDates(theirs)| ensures DatePasses(d, theirs, ExDates(theirs)[i]) {
      CheckedDatePasses(p, d, mine, theirs, held, i);
    }
    forall i | 0 <= i < |frozen| ensures FrozenMatches(d, theirs, frozen[i]) {
      CheckedEntryMatches(p, d, mine, theirs, held, i);
    }
  }

  ghost predicate SameChecked(p: Path, d: Daily, mine: seq<Action>, theirs: seq<Action>, held: seq<Action>) {
    && Priced(p) && DailyHolds(d) && SameBars(p, d) && FullyPriced(p, d)
    && multiset(mine) == multiset(theirs) && theirs == Dividends(held)
    && (forall a | a in held :: a.day in d.sessions && p.entry < a.day <= p.exit)
    && CheckDays(p, mine, ExDates(mine), |ExDates(mine)|).Going?
  }

  lemma CheckedDatePasses(p: Path, d: Daily, mine: seq<Action>, theirs: seq<Action>, held: seq<Action>, i: nat)
    requires SameChecked(p, d, mine, theirs, held) && i < |ExDates(theirs)|
    ensures DatePasses(d, theirs, ExDates(theirs)[i])
  {
    var a := DividendOn(theirs, i);
    FilterKeeps(held, KindDividend(), a);
    InBoth(mine, theirs, a);
    EveryDateHolds(p, mine, a);
    DatePassesToo(p, d, mine, theirs, a);
  }

  lemma InBoth(mine: seq<Action>, theirs: seq<Action>, a: Action)
    requires multiset(mine) == multiset(theirs)
    ensures a in mine <==> a in theirs
  {
    assert a in mine <==> a in multiset(mine);
    assert a in theirs <==> a in multiset(theirs);
  }

  lemma EntryIsHeld(p: Path, d: Daily, mine: seq<Action>, theirs: seq<Action>, held: seq<Action>, i: nat)
    requires SameChecked(p, d, mine, theirs, held)
    requires i < |CheckDays(p, mine, ExDates(mine), |ExDates(mine)|).paid|
    ensures var a := CheckDays(p, mine, ExDates(mine), |ExDates(mine)|).paid[i].action; a in mine && a in held
  {
    var days := ExDates(mine);
    var frozen := CheckDays(p, mine, days, |days|).paid;
    var a := frozen[i].action;
    CheckedEntries(p, mine, days, |days|);
    EveryDividendOnce(mine);
    assert ActionsOf(frozen)[i] == a;
    InBoth(mine, ActionsOf(frozen), a);
    InBoth(mine, theirs, a);
    FilterKeeps(held, KindDividend(), a);
  }

  lemma CheckedEntryMatches(p: Path, d: Daily, mine: seq<Action>, theirs: seq<Action>, held: seq<Action>, i: nat)
    requires SameChecked(p, d, mine, theirs, held)
    requires i < |CheckDays(p, mine, ExDates(mine), |ExDates(mine)|).paid|
    ensures FrozenMatches(d, theirs, CheckDays(p, mine, ExDates(mine), |ExDates(mine)|).paid[i])
  {
    var days := ExDates(mine);
    var a := CheckDays(p, mine, days, |days|).paid[i].action;
    EntryIsHeld(p, d, mine, theirs, held, i);
    EveryDateHolds(p, mine, a);
    DatePassesToo(p, d, mine, theirs, a);
    EntriesShowVerdicts(p, mine, days, |days|, i);
  }

  lemma DividendOn(dividends: seq<Action>, i: nat) returns (a: Action)
    requires i < |ExDates(dividends)|
    ensures a in dividends && a.day == ExDates(dividends)[i]
  {
    var day := ExDates(dividends)[i];
    assert TotalOrder(IntLe);
    SortMembers(KeyList(dividends, DayOf()), IntLe, day);
    KeyHasMembers(dividends, DayOf(), day);
    MembersHaveKey(dividends, DayOf(), day, 0);
    a := Members(dividends, DayOf(), day)[0];
  }
}
