/** What the event ledger's look at the distributions rests on, told in the held actions, the bars and the frozen
    list. */
module DailyEvidence {
  import opened Optional
  import opened Ordering
  import opened Documents
  import opened Grouping
  import opened Rounding
  import opened CashPaths
  import opened CashReturns
  import opened DailyDistributions
  import opened CashEvidence
  import Books

  function DividendOn(day: int): Action -> bool { (a: Action) => a.kind == "dividend" && a.day == day }

  /** What the dividends of one ex-date come to. */
  function TotalOn(held: seq<Action>, day: int): real { WorthSum(held, DividendOn(day), |held|) }

  /** The ex-date is session i, and both it and the session before it have a bar. */
  predicate Barred(d: Daily, day: int, i: int) {
    && 0 < i < |d.sessions| && d.sessions[i] == day && d.sessions[i - 1] in d.bars && day in d.bars
  }

  /** The diagnosis of an ex-date with this total: the cash that keeps close plus cash moving as the adjusted price does
      from the session before, its distance from the total, and what that distance may be. */
  predicate DiagnosedOn(d: Daily, i: int, total: real, implied: real, error: real, allowed: real)
    requires 0 < i < |d.sessions| && Barred(d, d.sessions[i], i)
  {
    var before, now := d.bars[d.sessions[i - 1]], d.bars[d.sessions[i]];
    && (now.0 + implied) * before.1 == before.0 * now.1 && Size(implied - total, error)
    && Larger(d.absolute, d.relative, implied, total, allowed)
  }

  /** The ex-date passes. */
  ghost predicate Passing(d: Daily, day: int, total: real) {
    exists i, implied, error, allowed | 0 < i < |d.sessions| ::
      Barred(d, day, i) && DiagnosedOn(d, i, total, implied, error, allowed) && error <= allowed
  }

  lemma AtSession(d: Daily, day: int, i: int)
    requires DailyHolds(d) && Barred(d, day, i)
    ensures Books.SessionIndex(d.sessions, day) == Some(i)
  {
  }

  function ImpliedAt(d: Daily, i: int): real
    requires DailyHolds(d) && 0 < i < |d.sessions| && Barred(d, d.sessions[i], i)
  {
    var before, now := d.bars[d.sessions[i - 1]], d.bars[d.sessions[i]];
    ImpliedBy(before.0, before.1, now.0, now.1)
  }

  /** A session has one diagnosis. */
  lemma {:induction false} OneDiagnosis(d: Daily, i: int, total: real, implied: real, error: real, allowed: real)
    requires DailyHolds(d) && 0 < i < |d.sessions| && Barred(d, d.sessions[i], i)
    ensures DiagnosedOn(d, i, total, implied, error, allowed)
      <==> && implied == ImpliedAt(d, i) && error == Abs(implied - total)
           && allowed == AllowedError(d.absolute, d.relative, implied, total)
  {
    var before, now := d.bars[d.sessions[i - 1]], d.bars[d.sessions[i]];
    ImpliedTells(before.0, before.1, now.0, now.1, implied);
    LargerTells(d.absolute, d.relative, implied, total);
  }

  lemma VerdictAt(d: Daily, i: int, total: real)
    requires DailyHolds(d) && 0 < i < |d.sessions| && Barred(d, d.sessions[i], i)
    ensures var implied := ImpliedAt(d, i);
      var error, allowed := Abs(implied - total), AllowedError(d.absolute, d.relative, implied, total);
      DailyVerdict(d, d.sessions[i], total)
        == if error > allowed then None else Some(Diagnosis(d.sessions[i - 1], implied, error, allowed))
  {
    AtSession(d, d.sessions[i], i);
  }

  lemma Unbarred(d: Daily, day: int, total: real)
    requires DailyHolds(d) && DailyVerdict(d, day, total).Some?
    ensures exists i | 0 < i < |d.sessions| :: Barred(d, day, i)
  {
    var i := Books.SessionIndex(d.sessions, day).value;
    assert Barred(d, day, i);
  }

  /** The verdict on an ex-date is its diagnosis, where it passes. */
  lemma {:induction false} DailyTells(d: Daily, day: int, total: real)
    requires DailyHolds(d)
    ensures DailyVerdict(d, day, total).Some? <==> Passing(d, day, total)
    ensures DailyVerdict(d, day, total).Some? ==> Shows(d, day, total, DailyVerdict(d, day, total).value)
  {
    if DailyVerdict(d, day, total).Some? {
      Unbarred(d, day, total);
      var i :| 0 < i < |d.sessions| && Barred(d, day, i);
      VerdictAt(d, i, total);
      var w := DailyVerdict(d, day, total).value;
      OneDiagnosis(d, i, total, w.implied, w.error, w.allowed);
    }
    if Passing(d, day, total) { PassingIsSome(d, day, total); }
  }

  lemma {:induction false} PassingIsSome(d: Daily, day: int, total: real)
    requires DailyHolds(d) && Passing(d, day, total)
    ensures DailyVerdict(d, day, total).Some?
  {
    var i, implied, error, allowed :|
      && 0 < i < |d.sessions| && Barred(d, day, i)
      && DiagnosedOn(d, i, total, implied, error, allowed) && error <= allowed;
    OneDiagnosis(d, i, total, implied, error, allowed);
    VerdictAt(d, i, total);
  }

  ghost predicate Shows(d: Daily, day: int, total: real, w: Diagnosis) {
    exists i | 0 < i < |d.sessions| ::
      && Barred(d, day, i) && DiagnosedOn(d, i, total, w.implied, w.error, w.allowed) && w.error <= w.allowed
      && w.previous == d.sessions[i - 1]
  }

  predicate BarsExplain(before: (real, real), now: (real, real), x: real) {
    (now.0 + x) * before.1 == before.0 * now.1
  }

  /** Where the bars explain the amount x, a total passes exactly when it is no further from x than its allowance; so x
      itself passes, with no error. */
  lemma {:induction false} TotalDecides(d: Daily, i: int, x: real, total: real, error: real, allowed: real)
    requires DailyHolds(d) && 0 < i < |d.sessions| && Barred(d, d.sessions[i], i)
    requires BarsExplain(d.bars[d.sessions[i - 1]], d.bars[d.sessions[i]], x)
    requires Size(x - total, error) && Larger(d.absolute, d.relative, x, total, allowed)
    ensures DailyVerdict(d, d.sessions[i], total)
      == if error > allowed then None else Some(Diagnosis(d.sessions[i - 1], x, error, allowed))
    ensures total == x ==> error == 0.0 && (d.absolute >= 0.0 && d.relative >= 0.0 ==> error <= allowed)
  {
    VerdictAt(d, i, total);
    ExplainedIsImplied(d, i, x);
    LargerIsAllowed(d.absolute, d.relative, x, total, allowed);
  }

  lemma ExplainedIsImplied(d: Daily, i: int, x: real)
    requires DailyHolds(d) && 0 < i < |d.sessions| && Barred(d, d.sessions[i], i)
    requires BarsExplain(d.bars[d.sessions[i - 1]], d.bars[d.sessions[i]], x)
    ensures ImpliedAt(d, i) == x
  {
    var before, now := d.bars[d.sessions[i - 1]], d.bars[d.sessions[i]];
    ImpliedTells(before.0, before.1, now.0, now.1, x);
  }

  // ----- the expected distributions -----

  predicate Understandable(a: Action) {
    a.kind == "acquisitionof" || (a.kind == "dividend" && WorthOf(a) > 0.0)
  }

  function AnyDividend(): Action -> bool { (a: Action) => a.kind == "dividend" }

  /** What is compared of a dividend: its day, its amount in money, and the action but for its value. */
  function Line(a: Action): (int, real, Action) { (a.day, Money(WorthOf(a)), a.(value := Null)) }

  function FrozenLine(c: Cash): (int, real, Action) { (c.action.day, Money(c.amount), c.action.(value := Null)) }

  predicate Near(x: real, y: real) { -0.000000000001 <= x - y <= 0.000000000001 }

  /** A frozen distribution shows the diagnosis of its ex-date, which passes. */
  ghost predicate ShowsNearly(d: Daily, c: Cash, total: real) {
    exists i, implied, error, allowed | 0 < i < |d.sessions| ::
      && Barred(d, c.action.day, i) && DiagnosedOn(d, i, total, implied, error, allowed) && error <= allowed
      && c.previous == d.sessions[i - 1] && Near(c.implied, implied) && Near(c.error, error) && Near(c.allowed, allowed)
  }

  /** What the event ledger accepts. */
  ghost predicate Accepts(d: Daily, held: seq<Action>, frozen: seq<Cash>) {
    && (forall i | 0 <= i < |held| :: Understandable(held[i]))
    && (forall i | 0 <= i < |held| && held[i].kind == "dividend" ::
          Passing(d, held[i].day, TotalOn(held, held[i].day)))
    && multiset(Mapped(Filter(held, AnyDividend()), Line)) == multiset(Mapped(frozen, FrozenLine))
    && forall i | 0 <= i < |frozen| :: ShowsNearly(d, frozen[i], TotalOn(held, frozen[i].action.day))
  }

  function AtDay(day: int): Action -> bool { (a: Action) => a.day == day }

  lemma {:induction false} DividendsTell(held: seq<Action>)
    ensures Dividends(held) == Filter(held, AnyDividend())
  {
    FilterCongruent(held, KindDividend(), AnyDividend());
  }

  /** The candidates of an ex-date come to its total. */
  lemma {:induction false} DayTotal(held: seq<Action>, day: int)
    requires forall i | 0 <= i < |held| :: Understandable(held[i])
    ensures var group := Members(Dividends(held), DayOf(), day);
      AllPaid(group) && SumOf(Amounts(group)) == TotalOn(held, day)
  {
    var group := Members(Dividends(held), DayOf(), day);
    MembersAreKept(Dividends(held), day, AtDay(day));
    FilterTwice(held, KindDividend(), AtDay(day), DividendOn(day));
    forall i | 0 <= i < |group| ensures Amount(group[i]).Some? {
      FilterKeeps(held, DividendOn(day), group[i]);
      WorthTells(group[i]);
    }
    assert held[..|held|] == held;
    TotalOfKept(held, DividendOn(day), |held|);
  }

  lemma {:induction false} DayTells(d: Daily, held: seq<Action>, day: int)
    requires DailyHolds(d) && forall i | 0 <= i < |held| :: Understandable(held[i])
    ensures DatePasses(d, Dividends(held), day) <==> Passing(d, day, TotalOn(held, day))
  {
    DayTotal(held, day);
    DailyTells(d, day, TotalOn(held, day));
  }

  lemma {:induction false} DatesTell(d: Daily, held: seq<Action>)
    requires DailyHolds(d) && forall i | 0 <= i < |held| :: Understandable(held[i])
    ensures DatesPass(d, Dividends(held), ExDates(Dividends(held)), |ExDates(Dividends(held))|)
      <==> forall i | 0 <= i < |held| && held[i].kind == "dividend" ::
             Passing(d, held[i].day, TotalOn(held, held[i].day))
  {
    var dividends := Dividends(held);
    var days := ExDates(dividends);
    if forall j | 0 <= j < |days| :: DatePasses(d, dividends, days[j]) {
      forall i | 0 <= i < |held| && held[i].kind == "dividend"
        ensures Passing(d, held[i].day, TotalOn(held, held[i].day))
      {
        FilterKeeps(held, KindDividend(), held[i]);
        var j := DateOf(dividends, held[i]);
        DayTells(d, held, days[j]);
      }
    }
    if forall i | 0 <= i < |held| && held[i].kind == "dividend" :: Passing(d, held[i].day, TotalOn(held, held[i].day)) {
      forall j | 0 <= j < |days| ensures DatePasses(d, dividends, days[j]) {
        var a := DailyDistributions.DividendOn(dividends, j);
        FilterKeeps(held, KindDividend(), a);
        var i :| 0 <= i < |held| && held[i] == a;
        DayTells(d, held, days[j]);
      }
    }
  }

  lemma {:induction false} DateOf(dividends: seq<Action>, a: Action) returns (j: nat)
    requires a in dividends
    ensures j < |ExDates(dividends)| && ExDates(dividends)[j] == a.day
  {
    assert DayOf()(a) == a.day;
    KeyHasRow(dividends, DayOf(), a.day);
    SortMembers(KeyList(dividends, DayOf()), IntLe, a.day);
    j :| 0 <= j < |ExDates(dividends)| && ExDates(dividends)[j] == a.day;
  }

  lemma {:induction false} FrozenTells(d: Daily, held: seq<Action>, c: Cash)
    requires DailyHolds(d) && forall i | 0 <= i < |held| :: Understandable(held[i])
    ensures FrozenMatches(d, Dividends(held), c) <==> ShowsNearly(d, c, TotalOn(held, c.action.day))
  {
    var day, total := c.action.day, TotalOn(held, c.action.day);
    DayTotal(held, day);
    DailyTells(d, day, total);
    if FrozenMatches(d, Dividends(held), c) {
      var w := DailyVerdict(d, day, total).value;
      var i :| 0 < i < |d.sessions| && Barred(d, day, i) && DiagnosedOn(d, i, total, w.implied, w.error, w.allowed)
               && w.error <= w.allowed && w.previous == d.sessions[i - 1];
      assert Near(c.implied, w.implied) && Near(c.error, w.error) && Near(c.allowed, w.allowed);
    }
    if ShowsNearly(d, c, total) {
      var i, implied, error, allowed :| 0 < i < |d.sessions| && Barred(d, day, i)
        && DiagnosedOn(d, i, total, implied, error, allowed) && error <= allowed && c.previous == d.sessions[i - 1]
        && Near(c.implied, implied) && Near(c.error, error) && Near(c.allowed, allowed);
      OneDiagnosis(d, i, total, implied, error, allowed);
      VerdictAt(d, i, total);
    }
  }

  lemma {:induction false} LinesTell(dividends: seq<Action>, frozen: seq<Cash>)
    requires forall i | 0 <= i < |dividends| :: WorthOf(dividends[i]) > 0.0
    ensures Mapped(dividends, Written) == Mapped(dividends, Line)
    ensures Mapped(frozen, WrittenCash) == Mapped(frozen, FrozenLine)
  {
    forall i | 0 <= i < |dividends| ensures Written(dividends[i]) == Line(dividends[i]) {
      AmountTells(dividends[i], WorthOf(dividends[i]));
    }
  }

  lemma {:induction false} ReadableTells(a: Action)
    ensures ReadableOne(a) <==> Understandable(a)
  {
    WorthTells(a);
  }

  /** The event ledger's reconstruction is accepted exactly when every held action is understood, every ex-date passes,
      the written dividends are the frozen ones, and each of those shows the diagnosis of its ex-date. */
  lemma {:induction false} ExpectedTells(d: Daily, held: seq<Action>, frozen: seq<Cash>)
    requires DailyHolds(d)
    ensures Expected(d, held, frozen) <==> Accepts(d, held, frozen)
  {
    forall a ensures ReadableOne(a) <==> Understandable(a) { ReadableTells(a); }
    if Readable(held) {
      DatesTell(d, held);
      DividendsTell(held);
      forall i | 0 <= i < |Dividends(held)| ensures WorthOf(Dividends(held)[i]) > 0.0 {
        FilterKeeps(held, AnyDividend(), Dividends(held)[i]);
      }
      LinesTell(Dividends(held), frozen);
      forall i | 0 <= i < |frozen|
        ensures FrozenMatches(d, Dividends(held), frozen[i])
          <==> ShowsNearly(d, frozen[i], TotalOn(held, frozen[i].action.day))
      {
        FrozenTells(d, held, frozen[i]);
      }
    }
  }
}
