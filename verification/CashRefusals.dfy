/** Where the two cash-return reconstructions part: a bad dividend the second refuses and the first never reaches. */
module CashRefusals {
  import opened Optional
  import opened Ordering
  import opened Documents
  import opened Grouping
  import opened CashPaths
  import opened CashReturns

  /** A path the first implementation has nothing to object to before it reads the actions. */
  ghost predicate Usable(p: Path) {
    && WellPriced(p) && p.entry < p.exit && p.absolute >= 0.0 && p.relative >= 0.0
    && p.currency == "USD" && p.entry in p.close.at
    && p.lifecycle.validated && p.lifecycle.isDelisted in {"N", "Y"} && p.lifecycle.permaticker > 0
    && p.lifecycle.finalDay.Some?
    && forall i | 0 <= i < |p.settlements| :: p.settlements[i].lastPriceDay.Some?
  }

  /** An ex-date whose dividends all have amounts and whose total does not pass the price-adjustment check. */
  predicate FailsOn(p: Path, dividends: seq<Action>, day: int)
    requires Priced(p)
  {
    var group := Members(dividends, DayOf(), day);
    AllPaid(group) && DayVerdict(p, day, SumOf(Amounts(group))).Fails?
  }

  /** Some ex-date fails its check, and every dividend without a positive amount has a later one. */
  predicate FailsBeforeBad(p: Path, held: seq<Action>)
    requires Priced(p)
  {
    exists i | 0 <= i < |held| :: IsDividend(held[i].kind) && FailsOn(p, Dividends(held), held[i].day)
                                  && BadComeAfter(held, held[i].day)
  }

  predicate BadComeAfter(held: seq<Action>, day: int) {
    forall i | 0 <= i < |held| && Unpaid(held[i]) :: day < held[i].day
  }

  /** Where the check of the first n ex-dates was refused: at the first of them with a bad dividend, all those
      before it having passed. */
  lemma {:induction false} RefusedAt(p: Path, dividends: seq<Action>, days: seq<int>, n: nat) returns (i: nat)
    requires Priced(p) && n <= |days| && CheckDays(p, dividends, days, n).Refused?
    ensures i < n && !AllPaid(Members(dividends, DayOf(), days[i]))
    ensures forall j | 0 <= j < i :: !FailsOn(p, dividends, days[j])
  {
    var before := CheckDays(p, dividends, days, n - 1);
    if before.Refused? {
      i := RefusedAt(p, dividends, days, n - 1);
    } else {
      i := n - 1;
      PassedDays(p, dividends, days, n - 1);
    }
  }

  lemma {:induction false} PassedDays(p: Path, dividends: seq<Action>, days: seq<int>, n: nat)
    requires Priced(p) && n <= |days| && CheckDays(p, dividends, days, n).Going?
    ensures forall j | 0 <= j < n :: AllPaid(Members(dividends, DayOf(), days[j])) && !FailsOn(p, dividends, days[j])
  {
    if n > 0 { PassedDays(p, dividends, days, n - 1); }
  }

  /** And where it stopped: at an ex-date that failed, those before it having amounts throughout. */
  lemma {:induction false} StoppedAt(p: Path, dividends: seq<Action>, days: seq<int>, n: nat) returns (i: nat)
    requires Priced(p) && n <= |days| && CheckDays(p, dividends, days, n).Stopped?
    ensures i < n && FailsOn(p, dividends, days[i])
    ensures forall j | 0 <= j <= i :: AllPaid(Members(dividends, DayOf(), days[j]))
  {
    var before := CheckDays(p, dividends, days, n - 1);
    if before.Stopped? {
      i := StoppedAt(p, dividends, days, n - 1);
    } else {
      i := n - 1;
      StoppedHere(p, dividends, days, n);
    }
  }

  lemma StoppedHere(p: Path, dividends: seq<Action>, days: seq<int>, n: nat)
    requires Priced(p) && 0 < n <= |days| && CheckDays(p, dividends, days, n).Stopped?
    requires !CheckDays(p, dividends, days, n - 1).Stopped?
    ensures FailsOn(p, dividends, days[n - 1])
    ensures forall j | 0 <= j < n :: AllPaid(Members(dividends, DayOf(), days[j]))
  {
    PassedDays(p, dividends, days, n - 1);
  }

  /** The ex-dates come in order. */
  lemma DaysAscend(dividends: seq<Action>)
    ensures forall i, j | 0 <= i < j < |ExDates(dividends)| :: ExDates(dividends)[i] <= ExDates(dividends)[j]
  {
    assert TotalOrder(IntLe);
    SortSorts(KeyList(dividends, DayOf()), IntLe);
    var days := ExDates(dividends);
    forall i, j | 0 <= i < j < |days| ensures days[i] <= days[j] { assert IntLe(days[i], days[j]); }
  }

  lemma DayIndex(held: seq<Action>, a: Action) returns (m: nat)
    requires a in held && IsDividend(a.kind)
    ensures m < |ExDates(Dividends(held))| && ExDates(Dividends(held))[m] == a.day
    ensures a in Members(Dividends(held), DayOf(), a.day)
  {
    FilterKeeps(held, KindDividend(), a);
    EveryDayIsListed(Dividends(held), a);
    m :| 0 <= m < |ExDates(Dividends(held))| && ExDates(Dividends(held))[m] == a.day;
  }

  /** A day that is refused has a bad dividend on it. */
  lemma BadOn(held: seq<Action>, day: int) returns (b: Action)
    requires !AllPaid(Members(Dividends(held), DayOf(), day))
    ensures b in held && Unpaid(b) && b.day == day
  {
    var group := Members(Dividends(held), DayOf(), day);
    var j :| 0 <= j < |group| && Amount(group[j]).None?;
    MembersHaveKey(Dividends(held), DayOf(), day, j);
    b := group[j];
    FilterKeeps(held, KindDividend(), b);
  }

  lemma UnpaidDay(held: seq<Action>, b: Action)
    requires b in held && Unpaid(b)
    ensures !AllPaid(Members(Dividends(held), DayOf(), b.day))
  {
    var m := DayIndex(held, b);
    var group := Members(Dividends(held), DayOf(), b.day);
    var j :| 0 <= j < |group| && group[j] == b;
  }

  lemma RefusedMeansReached(p: Path, held: seq<Action>)
    requires Priced(p) && AllChecked(p, held).Refused?
    ensures !FailsBeforeBad(p, held)
  {
    var dividends, days := Dividends(held), ExDates(Dividends(held));
    var i := RefusedAt(p, dividends, days, |days|);
    var b := BadOn(held, days[i]);
    DaysAscend(dividends);
    forall k | 0 <= k < |held| && IsDividend(held[k].kind) && FailsOn(p, dividends, held[k].day)
      ensures !BadComeAfter(held, held[k].day)
    {
      var m := DayIndex(held, held[k]);
      var n :| 0 <= n < |held| && held[n] == b;
    }
  }

  lemma StoppedMeansUnreached(p: Path, held: seq<Action>)
    requires Priced(p) && AllChecked(p, held).Stopped?
    ensures FailsBeforeBad(p, held)
  {
    var dividends, days := Dividends(held), ExDates(Dividends(held));
    var i := StoppedAt(p, dividends, days, |days|);
    var k := DividendOnDay(held, i);
    PaidUpToComesBefore(held, i);
    assert IsDividend(held[k].kind) && FailsOn(p, dividends, held[k].day) && BadComeAfter(held, held[k].day);
  }

  /** Every listed ex-date is some dividend's. */
  lemma DividendOnDay(held: seq<Action>, i: nat) returns (k: nat)
    requires i < |ExDates(Dividends(held))|
    ensures k < |held| && IsDividend(held[k].kind) && held[k].day == ExDates(Dividends(held))[i]
  {
    var dividends, day := Dividends(held), ExDates(Dividends(held))[i];
    assert TotalOrder(IntLe);
    SortMembers(KeyList(dividends, DayOf()), IntLe, day);
    KeyHasRow(dividends, DayOf(), day);
    var a :| a in dividends && DayOf()(a) == day;
    FilterKeeps(held, KindDividend(), a);
    k :| 0 <= k < |held| && held[k] == a;
  }

  /** Bad dividends come after the ex-dates up to which everything is paid. */
  lemma PaidUpToComesBefore(held: seq<Action>, i: nat)
    requires i < |ExDates(Dividends(held))|
    requires forall j | 0 <= j <= i :: AllPaid(Members(Dividends(held), DayOf(), ExDates(Dividends(held))[j]))
    ensures BadComeAfter(held, ExDates(Dividends(held))[i])
  {
    DaysAscend(Dividends(held));
    forall n | 0 <= n < |held| && Unpaid(held[n]) ensures ExDates(Dividends(held))[i] < held[n].day {
      UnpaidDay(held, held[n]);
      var m := DayIndex(held, held[n]);
    }
  }

  /** The second implementation refuses a dividend the first does not come to: an action it cannot read stops the
      first before any check, or an earlier ex-date fails. */
  predicate Unreached(p: Path, held: seq<Action>)
    requires Priced(p)
  {
    EarlyRefusal(held) && (StopAt(held) < |held| || FailsBeforeBad(p, held))
  }

  lemma NoEarlyRefusal(p: Path, held: seq<Action>)
    requires Priced(p) && AllChecked(p, held).Going?
    ensures !EarlyRefusal(held)
  {
    forall i | 0 <= i < StopAt(held) && IsDividend(held[i].kind) ensures Amount(held[i]).Some? {
      AllCheckedMeansPaid(p, held, held[i]);
    }
  }

  /** On a usable path the implementations part only over a dividend without a positive amount: the second
      refuses it while sorting the actions, the first only when it comes to check that ex-date. */
  lemma RaiseDifference(p: Path)
    requires Usable(p)
    ensures Primary(p).Raised? ==> Reference(p) == Primary(p)
    ensures Primary(p) != Reference(p) <==> Unreached(p, Held(p))
    ensures Primary(p) != Reference(p) ==> Reference(p) == Raised(BadDividend) && Primary(p).Unresolved?
  {
    var held := Held(p);
    NoSuspects(p);
    match AllChecked(p, held)
    case Going(_) => NoEarlyRefusal(p, held);
    case Stopped(_, _) => StoppedMeansUnreached(p, held);
    case Refused => RefusedMeansReached(p, held);
    EndsAgree(p, held, p.lifecycle.finalDay.value);
  }

  // ----- every other difference -----

  /** Arguments only the first implementation refuses: reversed dates, a negative tolerance, another currency. */
  predicate Misused(p: Path) { p.entry >= p.exit || p.absolute < 0.0 || p.relative < 0.0 || p.currency != "USD" }

  /** Every dividend has an amount and every ex-date passes its check. */
  predicate Clean(p: Path, held: seq<Action>)
    requires Priced(p)
  {
    forall i | 0 <= i < |held| && IsDividend(held[i].kind) ::
      Amount(held[i]).Some? && !FailsOn(p, Dividends(held), held[i].day)
  }

  lemma GoingIsClean(p: Path, held: seq<Action>)
    requires Priced(p) && AllChecked(p, held).Going?
    ensures Clean(p, held)
  {
    var days := ExDates(Dividends(held));
    PassedDays(p, Dividends(held), days, |days|);
    forall i | 0 <= i < |held| && IsDividend(held[i].kind)
      ensures Amount(held[i]).Some? && !FailsOn(p, Dividends(held), held[i].day)
    {
      AllCheckedMeansPaid(p, held, held[i]);
      var m := DayIndex(held, held[i]);
    }
  }

  lemma StoppedIsNotClean(p: Path, held: seq<Action>)
    requires Priced(p) && AllChecked(p, held).Stopped?
    ensures !Clean(p, held)
  {
    StoppedMeansUnreached(p, held);
    var i :| 0 <= i < |held| && IsDividend(held[i].kind) && FailsOn(p, Dividends(held), held[i].day)
             && BadComeAfter(held, held[i].day);
  }

  lemma RefusedIsNotClean(p: Path, held: seq<Action>)
    requires Priced(p) && AllChecked(p, held).Refused?
    ensures !Clean(p, held)
  {
    var days := ExDates(Dividends(held));
    var i := RefusedAt(p, Dividends(held), days, |days|);
    var b := BadOn(held, days[i]);
    var n :| 0 <= n < |held| && held[n] == b;
  }

  /** Only the first implementation looks for an unreadable last price date among the security's settlements. */
  predicate SettlementParts(p: Path, held: seq<Action>, finalDay: int)
    requires Priced(p)
  {
    var matches := Filter(p.settlements, Matching(p, finalDay));
    && StopAt(held) == |held| && Clean(p, held)
    && NeedsSettlement(p, held, finalDay) && ScanRefuses(p) && !(|matches| == 1 && matches[0].day.None?)
  }

  /** The two part from here on: a status only the first refuses, a dividend only the second does, or a settlement. */
  ghost predicate PartsInside(p: Path)
    requires WellPriced(p)
  {
    && p.entry in p.close.at && p.lifecycle.validated
    && (p.lifecycle.isDelisted !in {"N", "Y"}
        || (p.lifecycle.permaticker > 0 && p.lifecycle.finalDay.Some?
            && (Unreached(p, Held(p)) || SettlementParts(p, Held(p), p.lifecycle.finalDay.value))))
  }

  lemma PaidDifference(p: Path, held: seq<Action>, finalDay: int)
    requires Priced(p)
    ensures PrimaryPaid(p, held, finalDay) != ReferencePaid(p, held, finalDay) <==>
      Unreached(p, held) || SettlementParts(p, held, finalDay)
  {
    match AllChecked(p, held)
    case Going(_) =>
      NoEarlyRefusal(p, held);
      GoingIsClean(p, held);
    case Stopped(_, _) =>
      StoppedMeansUnreached(p, held);
      StoppedIsNotClean(p, held);
    case Refused =>
      RefusedMeansReached(p, held);
      RefusedIsNotClean(p, held);
  }

  /** On every path with positive prices: when the two implementations differ. */
  lemma Difference(p: Path)
    requires WellPriced(p)
    ensures Primary(p) != Reference(p) <==> Misused(p) || PartsInside(p)
  {
    if !Misused(p) && p.entry in p.close.at && p.lifecycle.validated {
      InsideDifference(p);
    }
  }

  lemma InsideDifference(p: Path)
    requires WellPriced(p) && !Misused(p) && p.entry in p.close.at && p.lifecycle.validated
    ensures Primary(p) != Reference(p) <==> PartsInside(p)
  {
    if p.lifecycle.finalDay.Some? {
      PaidDifference(p, Held(p), p.lifecycle.finalDay.value);
    }
  }

  function Paying(): Action { Action(1, "A", "dividend", "", Float(0.5), None, None) }

  function Bad(): Action { Action(2, "A", "dividend", "", Null, None, None) }

  /** Two dividends: the first on a day without a price, the second without an amount. */
  function Parting(): Path {
    var close := Series([0], map[0 := 1.0]);
    Path("A", 0, 3, close, close, [Bad(), Paying()], Lifecycle(true, "N", 1, Some(9)), "USD", [], 0.0, 0.0)
  }

  lemma PartingHeld(a: Action)
    ensures a in Held(Parting()) <==> a == Bad() || a == Paying()
  {
    var p := Parting();
    SortKeeps(Filter(p.actions, HeldBy(p)), ActionLe, a);
    FilterKeeps(p.actions, HeldBy(p), a);
    assert IsHeld(p, Bad()) && IsHeld(p, Paying());
  }

  /** There the first implementation gives up at the unpriced day and the second refuses the path. */
  lemma PartingParts()
    ensures var p := Parting(); Usable(p) && Primary(p).Unresolved? && Reference(p) == Raised(BadDividend)
  {
    var p := Parting();
    PartingUnreached(p, Held(p));
    RaiseDifference(p);
  }

  lemma PartingUnreached(p: Path, held: seq<Action>)
    requires p == Parting() && held == Held(p)
    ensures Priced(p) && Unreached(p, held)
  {
    forall i | 0 <= i < |held| ensures held[i] == Bad() || held[i] == Paying() { PartingHeld(held[i]); }
    PartingHeld(Bad());
    PartingHeld(Paying());
    PartingRefused(held);
    PartingStops(p, held);
  }

  lemma PartingStops(p: Path, held: seq<Action>)
    requires p == Parting() && Paying() in held && forall i | 0 <= i < |held| :: held[i] == Bad() || held[i] == Paying()
    ensures Priced(p) && FailsBeforeBad(p, held)
  {
    PartingFails(p, held);
    var j :| 0 <= j < |held| && held[j] == Paying();
    assert IsDividend(held[j].kind) && BadComeAfter(held, held[j].day);
  }

  lemma PartingRefused(held: seq<Action>)
    requires Bad() in held && forall i | 0 <= i < |held| :: held[i] == Bad() || held[i] == Paying()
    ensures EarlyRefusal(held)
  {
    var i :| 0 <= i < |held| && held[i] == Bad();
    assert Unpaid(held[i]) && StopAt(held) == |held|;
  }

  lemma PartingFails(p: Path, held: seq<Action>)
    requires p == Parting() && forall i | 0 <= i < |held| :: held[i] == Bad() || held[i] == Paying()
    ensures Priced(p) && FailsOn(p, Dividends(held), 1)
  {
    var group := Members(Dividends(held), DayOf(), 1);
    forall i | 0 <= i < |group| ensures Amount(group[i]) == Some(0.5) {
      MembersHaveKey(Dividends(held), DayOf(), 1, i);
      FilterKeeps(held, KindDividend(), group[i]);
      assert group[i] == Paying();
    }
    assert Evidence(p, 1) == Some(DividendDateUnpriced);
  }

  lemma NoSuspects(p: Path)
    requires Usable(p)
    ensures !ScanRefuses(p)
  {}

  lemma EndsAgree(p: Path, held: seq<Action>, finalDay: int)
    requires Priced(p) && !ScanRefuses(p)
    ensures StopAt(held) == |held| && AllChecked(p, held).Going? ==>
      PrimaryPaid(p, held, finalDay) == ReferenceEnd(p, held, finalDay, AllChecked(p, held).paid)
  {}
}
