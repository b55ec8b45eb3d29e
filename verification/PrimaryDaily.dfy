/** The primary daily ledger: the session loop of analysis/pead_daily_ledger.py. Cash, receivable,
    fees and the previous NAV are running totals; the previous close is looked up by ticker. */
module PrimaryDaily {
  import opened Rounding
  import opened Optional
  import opened Sums
  import opened Books
  import opened BookLaws
  import opened WrittenRows

  datatype Row = Row(ticker: string, mTicker: string, leg: Leg, entryDate: int, exitDate: int, horizon: int,
                     target: real, quantity: real, entryFee: real, exitFee: real, accruals: seq<Accrual>)

  datatype Summary = Summary(namesPerLeg: int, terminalNav: real)

  datatype Error =
    | NoSummary | InvalidNamesPerLeg | NotTwoLegs | DatesNotShared | DatesNotSessions | WrongHorizon
    | MissingEntryClose | BasisMismatch | RepeatedAction | MissingClose | DailyIdentity | TerminalIdentity

  datatype Outcome = Done(sessions: seq<Session>) | Failed(error: Error)

  const Tolerance: real := 0.000_000_000_001

  /** An earlier name of the cohort, among the first j, carries the same ticker. */
  predicate SeenBefore(b: Book, i: int, j: int)
    decreases j
  {
    && 0 <= i < |b.items|
    && 0 < j <= |b.items|
    && (b.items[j - 1].ticker == b.items[i].ticker || SeenBefore(b, i, j - 1))
  }

  /** The price P&L booked: a ticker already handled today has today's close as its "previous" one. */
  function ChainedPnl(b: Book, i: int, t: int): real {
    if SeenBefore(b, i, i) then 0.0 else b.PriceMove(i, t)
  }

  function PrimaryName(b: Book, i: nat, t: nat): NameState
    requires i < |b.items| && t < |b.path|
  {
    b.NameAt(i, t, 0, ChainedPnl(b, i, t))
  }

  function PrimaryCohort(b: Book, t: nat): CohortState {
    b.CohortAt(t, 0, SumTo(|b.items|, b.LongBySign(t)), SumTo(|b.items|, b.ShortBySign(t)),
               Some(SumTo(|b.items|, b.CheckpointFees(t))), if t == b.Last() then 0 else |b.items|)
  }

  /** Session t of the book before serialization. */
  function PrimarySession(b: Book, t: nat): Session
    requires t < |b.path|
  {
    Session(b.path[t], PrimaryCohort(b, t), seq(|b.items|, i requires 0 <= i < |b.items| => PrimaryName(b, i, t)))
  }

  /** The serialized contributions the loop adds up again. */
  function Contributions(b: Book, t: int): int -> real {
    i => if 0 <= i < |b.items| && 0 <= t < |b.path| then Money(PrimaryName(b, i, t).netPnl) else 0.0
  }

  /** The loop's own daily check. */
  predicate DailyIdentityHolds(b: Book, t: int) {
    Abs(b.Nav(0, t) - b.Nav(0, t - 1) - SumTo(|b.items|, Contributions(b, t))) <= Tolerance
  }

  predicate TerminalHolds(b: Book, terminalNav: real) {
    Abs(b.Nav(0, b.Last()) - terminalNav) <= Tolerance
  }

  function OrderFlows(b: Book, t: int): int -> real { i => -(b.Order(i, t) * b.Close(i, t)) }

  function AccrualsOn(b: Book, t: int): int -> real { i => b.AccruedOn(i, t) }

  /** One name's exact cash is its order flows minus its fees; the loop's running cash adds these up. */
  lemma CashStep(b: Book, t: nat)
    requires t < |b.path|
    ensures b.Cash(t) == (if t == 0 then 1.0 else b.Cash(t - 1))
                         + SumTo(|b.items|, OrderFlows(b, t)) - SumTo(|b.items|, b.CheckpointFees(t))
  {
    var n := |b.items|;
    var step := (i: int) => OrderFlows(b, t)(i) - b.CheckpointFees(t)(i);
    SumOfDifferences(n, OrderFlows(b, t), b.CheckpointFees(t), step);
    if t == 0 {
      SumCongruent(n, b.Cashes(0), step);
    } else {
      SumOfSums(n, b.Cashes(t - 1), step, b.Cashes(t));
    }
  }

  lemma ReceivableStep(b: Book, from: int, t: nat)
    requires t < |b.path| && from <= t
    ensures b.Receivable(from, t) == (if t == 0 then 0.0 else b.Receivable(from, t - 1))
        + SumTo(|b.items|, AccrualsOn(b, t))
  {
    var n := |b.items|;
    if t == 0 {
      forall i | 0 <= i < n ensures b.Receivables(from, 0)(i) == AccrualsOn(b, 0)(i) {
        NoAccrualBefore(b, i, from, -1);
      }
      SumCongruent(n, b.Receivables(from, 0), AccrualsOn(b, 0));
    } else {
      SumOfSums(n, b.Receivables(from, t - 1), AccrualsOn(b, t), b.Receivables(from, t));
    }
  }

  lemma FeesStep(b: Book, t: nat)
    requires t < |b.path|
    ensures SumTo(|b.items|, b.Fees(t)) ==
            (if t == 0 then 0.0 else SumTo(|b.items|, b.Fees(t - 1))) + SumTo(|b.items|, b.CheckpointFees(t))
  {
    var n := |b.items|;
    if t == 0 {
      SumCongruent(n, b.Fees(0), b.CheckpointFees(0));
    } else {
      SumOfSums(n, b.Fees(t - 1), b.CheckpointFees(t), b.Fees(t));
    }
  }

  /** What the inner loop over the names leaves behind for one session. */
  datatype Marks = Marks(market: real, long: real, short: real, accrual: real, fees: real, flow: real)

  function MarksTo(b: Book, t: int, n: nat): Marks {
    Marks(SumTo(n, b.Markets(t)), SumTo(n, b.LongBySign(t)), SumTo(n, b.ShortBySign(t)),
          SumTo(n, AccrualsOn(b, t)), SumTo(n, b.CheckpointFees(t)), SumTo(n, OrderFlows(b, t)))
  }

  function NamesTo(b: Book, t: nat, n: nat): seq<NameState>
    requires t < |b.path| && n <= |b.items|
  {
    seq(n, i requires 0 <= i < n => PrimaryName(b, i, t))
  }

  /** Each name's receivable once the first n names of session t are handled. */
  function BalancesTo(b: Book, t: int, n: nat): seq<real> {
    seq(|b.items|, i => b.Accrued(i, 0, if i < n then t else t - 1))
  }

  /** The close the next session will call the previous one, once the first j names are handled. */
  predicate PreviousAt(b: Book, t: int, j: nat, previous: map<string, real>) {
    forall i :: 0 <= i < |b.items| && (t > 0 || SeenBefore(b, i, j)) ==>
      b.items[i].ticker in previous &&
      previous[b.items[i].ticker] == (if SeenBefore(b, i, j) then b.Close(i, t) else b.Close(i, t - 1))
  }

  /** Adds one name to the running totals; gross exposure goes to a side by the sign of the market value. */
  function Advance(m: Marks, s: NameState): Marks {
    Marks(m.market + s.marketValue,
          if s.marketValue >= 0.0 then m.long + s.marketValue else m.long,
          if s.marketValue >= 0.0 then m.short else m.short + -s.marketValue,
          m.accrual + s.accrual, m.fees + s.fee, m.flow + s.cashFlow)
  }

  lemma HandleOne(b: Book, t: nat, j: nat)
    requires t < |b.path| && j < |b.items|
    ensures MarksTo(b, t, j + 1) == Advance(MarksTo(b, t, j), PrimaryName(b, j, t))
    ensures NamesTo(b, t, j + 1) == NamesTo(b, t, j) + [PrimaryName(b, j, t)]
    ensures BalancesTo(b, t, j + 1) == BalancesTo(b, t, j)[j := PrimaryName(b, j, t).receivable]
  {
    var m, s := MarksTo(b, t, j), PrimaryName(b, j, t);
    var n := Advance(m, s);
    assert s.marketValue == b.Markets(t)(j) && s.accrual == AccrualsOn(b, t)(j);
    assert s.fee == b.CheckpointFees(t)(j) && s.cashFlow == OrderFlows(b, t)(j);
    assert n.long == m.long + b.LongBySign(t)(j);
    assert n.short == m.short + b.ShortBySign(t)(j);
  }

  /** The loop's price P&L: zero at entry or without a remembered close. */
  function BookedPnl(b: Book, t: nat, j: nat, previous: map<string, real>): real
    requires j < |b.items|
  {
    if t == 0 || b.items[j].ticker !in previous then 0.0
    else b.items[j].quantity * (b.Close(j, t) - previous[b.items[j].ticker])
  }

  lemma BookedPnlIsChained(b: Book, t: nat, j: nat, previous: map<string, real>)
    requires j < |b.items| && t < |b.path| && PreviousAt(b, t, j, previous)
    ensures BookedPnl(b, t, j, previous) == ChainedPnl(b, j, t)
  {
    if t > 0 && SeenBefore(b, j, j) {
      assert previous[b.items[j].ticker] == b.Close(j, t);
      assert b.items[j].quantity * 0.0 == 0.0;
    }
  }

  /** One name at one session: its order, position, fee, accrual and P&L, before serialization. */
  method MarkName(b: Book, t: nat, j: nat, receivable: real, previous: map<string, real>) returns (state: NameState)
    requires t < |b.path| && j < |b.items| && b.Priced(j, t)
    requires receivable == b.Accrued(j, 0, t - 1) && PreviousAt(b, t, j, previous)
    ensures state == PrimaryName(b, j, t)
  {
    var item := b.items[j];
    var isEntry, isExit := t == 0, t == |b.path| - 1;
    var close := b.prices[(item.ticker, b.path[t])];
    var quantity := item.quantity;
    var order := if isEntry then quantity else if isExit then -quantity else 0.0;
    var position := if isExit then 0.0 else quantity;
    var fee := if isEntry then item.entryFee else if isExit then item.exitFee else 0.0;
    var accrual := DatedTotal(item.accruals, b.path[t]);
    var pnl := BookedPnl(b, t, j, previous);
    BookedPnlIsChained(b, t, j, previous);
    state := NameState(item.mTicker, close, if isExit then 0.0 else item.target, order, position, -(order * close),
                       accrual, receivable + accrual, position * close, pnl, fee, pnl + accrual - fee,
                       DatedKeys(item.accruals, b.path[t]));
  }

  /** The inner loop: marks every name, adds its accrual to its receivable, and remembers its close. */
  method MarkSession(b: Book, t: nat, balancesBefore: seq<real>, before: map<string, real>)
    returns (priced: bool, marks: Marks, names: seq<NameState>, balances: seq<real>, previous: map<string, real>)
    requires t < |b.path| && balancesBefore == BalancesTo(b, t, 0)
    requires PreviousAt(b, t, 0, before)
    ensures priced <==> forall i :: 0 <= i < |b.items| ==> b.Priced(i, t)
    ensures priced ==> marks == MarksTo(b, t, |b.items|) && names == NamesTo(b, t, |b.items|)
    ensures priced ==> balances == BalancesTo(b, t + 1, 0)
    ensures priced && t + 1 < |b.path| ==> PreviousAt(b, t + 1, 0, previous)
  {
    marks, names, balances, previous := Marks(0.0, 0.0, 0.0, 0.0, 0.0, 0.0), [], balancesBefore, before;
    var j := 0;
    while j < |b.items|
      invariant 0 <= j <= |b.items|
      invariant forall i :: 0 <= i < j ==> b.Priced(i, t)
      invariant marks == MarksTo(b, t, j) && names == NamesTo(b, t, j) && balances == BalancesTo(b, t, j)
      invariant PreviousAt(b, t, j, previous)
    {
      if (b.items[j].ticker, b.path[t]) !in b.prices {
        assert !b.Priced(j, t);
        return false, marks, names, balances, previous;
      }
      var state := MarkName(b, t, j, balances[j], previous);
      HandleOne(b, t, j);
      RememberClose(b, t, j, previous);
      marks, names := Advance(marks, state), names + [state];
      balances := balances[j := state.receivable];
      previous := previous[b.items[j].ticker := state.close];
      j := j + 1;
    }
    NextBalances(b, t);
    if t + 1 < |b.path| {
      PreviousNext(b, t, previous);
    }
    priced := true;
  }

  lemma RememberClose(b: Book, t: nat, j: nat, previous: map<string, real>)
    requires j < |b.items| && t < |b.path| && b.Priced(j, t) && PreviousAt(b, t, j, previous)
    ensures PreviousAt(b, t, j + 1, previous[b.items[j].ticker := b.Close(j, t)])
  {
    var after := previous[b.items[j].ticker := b.Close(j, t)];
    forall i | 0 <= i < |b.items| && (t > 0 || SeenBefore(b, i, j + 1))
      ensures b.items[i].ticker in after
      ensures after[b.items[i].ticker] == (if SeenBefore(b, i, j + 1) then b.Close(i, t) else b.Close(i, t - 1))
    {
      if b.items[i].ticker == b.items[j].ticker {
        assert SeenBefore(b, i, j + 1);
        assert b.Close(i, t) == b.Close(j, t);
      } else {
        assert SeenBefore(b, i, j + 1) == SeenBefore(b, i, j);
      }
    }
  }

  lemma PreviousNext(b: Book, t: nat, previous: map<string, real>)
    requires t + 1 < |b.path| && PreviousAt(b, t, |b.items|, previous)
    ensures PreviousAt(b, t + 1, 0, previous)
  {
    forall i | 0 <= i < |b.items| ensures SeenBefore(b, i, |b.items|) {
      HandledIsSeen(b, i, |b.items|);
    }
  }

  lemma {:induction false} HandledIsSeen(b: Book, i: nat, j: nat)
    requires i < j <= |b.items|
    ensures SeenBefore(b, i, j)
  {
    if i < j - 1 {
      HandledIsSeen(b, i, j - 1);
    }
  }

  /** With distinct tickers no name ever sees another's close. */
  lemma {:induction false} DistinctIsUnseen(b: Book, i: nat, j: nat)
    requires b.DistinctTickers() && j <= i < |b.items|
    ensures !SeenBefore(b, i, j)
  {
    if j > 0 {
      DistinctIsUnseen(b, i, j - 1);
    }
  }

  function FixedSessions(b: Book, n: nat): seq<Session>
    requires n <= |b.path|
  {
    seq(n, t requires 0 <= t < n => Fix(PrimarySession(b, t)))
  }

  method SumNetPnl(b: Book, t: nat, names: seq<NameState>) returns (total: real)
    requires t < |b.path| && names == Fix(PrimarySession(b, t)).names
    ensures total == SumTo(|b.items|, Contributions(b, t))
  {
    total := 0.0;
    for j := 0 to |names|
      invariant total == SumTo(j, Contributions(b, t))
    {
      assert names[j] == FixName(PrimaryName(b, j, t));
      total := total + names[j].netPnl;
    }
  }

  /** The running totals between sessions. */
  datatype Totals = Totals(cash: real, receivable: real, fees: real, nav: real)

  function TotalsBefore(b: Book, t: nat): Totals {
    if t == 0 then Totals(1.0, 0.0, 0.0, 1.0)
    else Totals(b.Cash(t - 1), b.Receivable(0, t - 1), SumTo(|b.items|, b.Fees(t - 1)), b.Nav(0, t - 1))
  }

  /** Carries the totals over one session and writes its rows. */
  method CloseSession(b: Book, t: nat, before: Totals, marks: Marks, names: seq<NameState>)
    returns (session: Session, after: Totals)
    requires t < |b.path| && before == TotalsBefore(b, t)
    requires marks == MarksTo(b, t, |b.items|) && names == NamesTo(b, t, |b.items|)
    ensures session == Fix(PrimarySession(b, t)) && after == TotalsBefore(b, t + 1)
  {
    CashStep(b, t);
    ReceivableStep(b, 0, t);
    FeesStep(b, t);
    var cash := before.cash + (marks.flow - marks.fees);
    var receivable := before.receivable + marks.accrual;
    var fees := before.fees + marks.fees;
    var nav := cash + receivable + marks.market;
    assert before.nav == b.Nav(0, t - 1);
    var cohort := CohortState(cash, receivable, marks.market, marks.long, marks.short, nav, Some(marks.fees), fees,
                              nav - before.nav, nav - 1.0, if t == |b.path| - 1 then 0 else |b.items|);
    assert cohort == PrimaryCohort(b, t);
    assert names == PrimarySession(b, t).names;
    session := Fix(Session(b.path[t], cohort, names));
    after := Totals(cash, receivable, fees, nav);
  }

  predicate PricedAt(b: Book, t: int) {
    forall i :: 0 <= i < |b.items| ==> b.Priced(i, t)
  }

  /** One session: mark the names, close the cohort row, run the daily check. */
  method ReplaySession(b: Book, t: nat, totals: Totals, balances: seq<real>, previous: map<string, real>)
    returns (error: Option<Error>, session: Session, next: Totals, after: seq<real>, closes: map<string, real>)
    requires t < |b.path| && totals == TotalsBefore(b, t) && balances == BalancesTo(b, t, 0)
    requires PreviousAt(b, t, 0, previous)
    ensures error == (if !PricedAt(b, t) then Some(MissingClose)
                      else if !DailyIdentityHolds(b, t) then Some(DailyIdentity) else None)
    ensures error.None? ==> session == Fix(PrimarySession(b, t)) && next == TotalsBefore(b, t + 1)
    ensures error.None? ==> after == BalancesTo(b, t + 1, 0) && (t + 1 < |b.path| ==> PreviousAt(b, t + 1, 0, closes))
  {
    var priced, marks, names;
    priced, marks, names, after, closes := MarkSession(b, t, balances, previous);
    session, next := Session(b.path[t], CohortState(0.0, 0.0, 0.0, 0.0, 0.0, 0.0, None, 0.0, 0.0, 0.0, 0), []), totals;
    if !priced {
      return Some(MissingClose), session, next, after, closes;
    }
    session, next := CloseSession(b, t, totals, marks, names);
    var contributions := SumNetPnl(b, t, session.names);
    assert totals.nav == b.Nav(0, t - 1) && next.nav == b.Nav(0, t);
    error := if Abs(next.nav - totals.nav - contributions) > Tolerance then Some(DailyIdentity) else None;
  }

  /** Every close of the first t sessions is present. */
  predicate PricedThrough(b: Book, t: int) {
    t <= 0 || (PricedThrough(b, t - 1) && PricedAt(b, t - 1))
  }

  /** The daily check passes at each of the first t sessions. */
  predicate IdentitiesThrough(b: Book, t: int) {
    t <= 0 || (IdentitiesThrough(b, t - 1) && DailyIdentityHolds(b, t - 1))
  }

  lemma {:induction false} PricedThroughAll(b: Book, t: nat)
    ensures PricedThrough(b, t) <==> forall s :: 0 <= s < t ==> PricedAt(b, s)
  {
    if t > 0 {
      PricedThroughAll(b, t - 1);
    }
  }

  lemma {:induction false} ThroughPrefix(b: Book, s: nat, t: nat)
    requires s <= t
    ensures PricedThrough(b, t) ==> PricedThrough(b, s)
    ensures IdentitiesThrough(b, t) ==> IdentitiesThrough(b, s)
  {
    if s < t {
      ThroughPrefix(b, s, t - 1);
    }
  }

  lemma AppendSession(b: Book, t: nat)
    requires t < |b.path|
    ensures FixedSessions(b, t + 1) == FixedSessions(b, t) + [Fix(PrimarySession(b, t))]
  {
  }

  /** The session loop. It finishes exactly when every close is present, every daily check passes and the
      terminal NAV matches; what it then writes is the closed-form book, serialized. */
  method ReplaySessions(b: Book, terminalNav: real) returns (r: Outcome)
    requires |b.path| > 0
    ensures r.Done? <==> PricedThrough(b, |b.path|) && IdentitiesThrough(b, |b.path|) && TerminalHolds(b, terminalNav)
    ensures r.Done? ==> r.sessions == FixedSessions(b, |b.path|)
    ensures r.Failed? ==> r.error in {MissingClose, DailyIdentity, TerminalIdentity}
    ensures r == Failed(MissingClose) ==> !PricedThrough(b, |b.path|)
    ensures r == Failed(DailyIdentity) ==> !IdentitiesThrough(b, |b.path|)
  {
    var totals := Totals(1.0, 0.0, 0.0, 1.0);
    var previous: map<string, real> := map[];
    var balances := seq(|b.items|, _ => 0.0);
    var done := [];
    StartingBalances(b);
    var t := 0;
    while t < |b.path|
      invariant 0 <= t <= |b.path|
      invariant totals == TotalsBefore(b, t) && balances == BalancesTo(b, t, 0)
      invariant t < |b.path| ==> PreviousAt(b, t, 0, previous)
      invariant PricedThrough(b, t) && IdentitiesThrough(b, t)
      invariant done == FixedSessions(b, t)
    {
      var error, session, next, after, closes := ReplaySession(b, t, totals, balances, previous);
      if error.Some? {
        ThroughPrefix(b, t + 1, |b.path|);
        return Failed(error.value);
      }
      AppendSession(b, t);
      done := done + [session];
      balances, previous, totals := after, closes, next;
      t := t + 1;
    }
    if Abs(totals.nav - terminalNav) > Tolerance {
      return Failed(TerminalIdentity);
    }
    return Done(done);
  }

  lemma StartingBalances(b: Book)
    ensures BalancesTo(b, 0, 0) == seq(|b.items|, _ => 0.0)
  {
    forall i | 0 <= i < |b.items| ensures b.Accrued(i, 0, -1) == 0.0 {
      NoAccrualBefore(b, i, 0, -1);
    }
  }

  lemma NextBalances(b: Book, t: nat)
    ensures BalancesTo(b, t, |b.items|) == BalancesTo(b, t + 1, 0)
  {
  }

  // ----- what the rows report -----

  /** One session's rows: every name's, and the cohort's with gross exposure by sign and the session's fees. */
  ghost predicate SessionReported(b: Book, t: nat, s: Session)
    requires t < |b.path|
  {
    && s.day == b.path[t] && |s.names| == |b.items|
    && (forall i :: 0 <= i < |b.items| ==> NameReported(b, i, t, 0, ChainedPnl(b, i, t), s.names[i]))
    && CohortReported(b, t, 0, SumTo(|b.items|, Longs(b, t)), SumTo(|b.items|, Shorts(b, t)), s.cohort)
    && s.cohort.checkpointFees.Some? && Reports(s.cohort.checkpointFees.value, SumTo(|b.items|, b.CheckpointFees(t)))
    && s.cohort.openCount == if t == |b.path| - 1 then 0 else |b.items|
  }

  ghost predicate BookReported(b: Book, sessions: seq<Session>) {
    |sessions| == |b.path| && forall t :: 0 <= t < |b.path| ==> SessionReported(b, t, sessions[t])
  }

  lemma {:induction false} SessionIsReported(b: Book, t: nat)
    requires t < |b.path|
    ensures SessionReported(b, t, Fix(PrimarySession(b, t)))
  {
    var long, short := SumTo(|b.items|, b.LongBySign(t)), SumTo(|b.items|, b.ShortBySign(t));
    var fees, open := SumTo(|b.items|, b.CheckpointFees(t)), if t == b.Last() then 0 else |b.items|;
    GrossBySign(b, t);
    CohortIsReported(b, t, 0, long, short, Some(fees), open);
    MoneyReports(fees);
    NamesAreReported(b, t, Fix(PrimarySession(b, t)).names);
  }

  lemma {:induction false} NamesAreReported(b: Book, t: nat, names: seq<NameState>)
    requires t < |b.path| && |names| == |b.items|
    requires forall i :: 0 <= i < |names| ==> names[i] == FixName(PrimaryName(b, i, t))
    ensures forall i :: 0 <= i < |b.items| ==> NameReported(b, i, t, 0, ChainedPnl(b, i, t), names[i])
  {
    forall i | 0 <= i < |b.items| ensures NameReported(b, i, t, 0, ChainedPnl(b, i, t), names[i]) {
      NameIsReported(b, i, t, 0, ChainedPnl(b, i, t));
    }
  }

  lemma {:induction false} BookIsReported(b: Book)
    ensures BookReported(b, FixedSessions(b, |b.path|))
  {
    forall t | 0 <= t < |b.path| ensures SessionReported(b, t, FixedSessions(b, |b.path|)[t]) {
      SessionIsReported(b, t);
    }
  }

  predicate DistinctActions(accruals: seq<Accrual>) {
    forall i, j :: 0 <= i < j < |accruals| ==> accruals[i].key != accruals[j].key
  }

  /** The exact daily basis of a row: target and quantity are recomputed, fees and accruals are read. */
  function ItemOf(row: Row, k: int, prices: Prices): Item
    requires k > 0 && (row.ticker, row.entryDate) in prices && PositivePrices(prices)
  {
    var target := Sign(row.leg) / k as real;
    Item(row.ticker, row.mTicker, row.leg, target, target / prices[(row.ticker, row.entryDate)],
         row.entryFee, row.exitFee, row.accruals)
  }

  /** The row is accepted as an item: entry close present, basis within 1e-12, no repeated action. */
  predicate RowAccepted(row: Row, k: int, prices: Prices)
    requires k > 0 && PositivePrices(prices)
  {
    && (row.ticker, row.entryDate) in prices
    && Abs(row.target - ItemOf(row, k, prices).target) <= Tolerance
    && Abs(row.quantity - ItemOf(row, k, prices).quantity) <= Tolerance
    && DistinctActions(row.accruals)
  }

  predicate DatesShared(rows: seq<Row>) {
    forall i :: 0 <= i < |rows| ==> rows[i].entryDate == rows[0].entryDate && rows[i].exitDate == rows[0].exitDate
  }

  /** The cohort has a summary, two full legs, one shared horizon of exact length, and acceptable rows. */
  predicate CohortAccepted(rows: seq<Row>, summary: Option<Summary>, sessions: seq<int>, prices: Prices)
    requires PositivePrices(prices)
  {
    && summary.Some? && summary.value.namesPerLeg > 0 && |rows| == 2 * summary.value.namesPerLeg
    && DatesShared(rows)
    && var start, end := SessionIndex(sessions, rows[0].entryDate), SessionIndex(sessions, rows[0].exitDate);
    && start.Some? && end.Some? && end.value - start.value == rows[0].horizon && 0 <= rows[0].horizon
    && forall i :: 0 <= i < |rows| ==> RowAccepted(rows[i], summary.value.namesPerLeg, prices)
  }

  function BookOf(rows: seq<Row>, summary: Option<Summary>, sessions: seq<int>, prices: Prices): (b: Book)
    requires PositivePrices(prices) && CohortAccepted(rows, summary, sessions, prices)
    ensures |b.items| == |rows| && |b.path| == rows[0].horizon + 1
  {
    var start := SessionIndex(sessions, rows[0].entryDate).value;
    Book(seq(|rows|, i requires 0 <= i < |rows| => ItemOf(rows[i], summary.value.namesPerLeg, prices)),
         sessions[start..start + rows[0].horizon + 1], prices)
  }

  /** One cohort, from ledger rows to daily rows: exactly the accepted cohorts whose book passes its checks. */
  method CohortDailyRows(rows: seq<Row>, summary: Option<Summary>, sessions: seq<int>, prices: Prices)
    returns (r: Outcome)
    requires PositivePrices(prices)
    ensures r.Done? <==>
            && CohortAccepted(rows, summary, sessions, prices)
            && var b := BookOf(rows, summary, sessions, prices);
            && PricedThrough(b, |b.path|) && IdentitiesThrough(b, |b.path|)
                && TerminalHolds(b, summary.value.terminalNav)
    ensures r.Done? ==>
              var b := BookOf(rows, summary, sessions, prices);
              r.sessions == FixedSessions(b, |b.path|) && BookReported(b, r.sessions)
  {
    if summary.None? {
      return Failed(NoSummary);
    }
    var k := summary.value.namesPerLeg;
    if k <= 0 {
      return Failed(InvalidNamesPerLeg);
    }
    if |rows| != 2 * k {
      return Failed(NotTwoLegs);
    }
    var shared := CheckDates(rows);
    if !shared {
      return Failed(DatesNotShared);
    }
    var start, end := SessionIndex(sessions, rows[0].entryDate), SessionIndex(sessions, rows[0].exitDate);
    if start.None? || end.None? {
      return Failed(DatesNotSessions);
    }
    // The ledger these rows come from never carries an exit before its entry.
    if end.value - start.value != rows[0].horizon || rows[0].horizon < 0 {
      return Failed(WrongHorizon);
    }
    var error, items := ReadItems(rows, k, prices);
    if error.Some? {
      return Failed(error.value);
    }
    var b := Book(items, sessions[start.value..end.value + 1], prices);
    assert b == BookOf(rows, summary, sessions, prices);
    r := ReplaySessions(b, summary.value.terminalNav);
    BookIsReported(b);
  }

  method CheckDates(rows: seq<Row>) returns (shared: bool)
    ensures shared <==> DatesShared(rows)
  {
    for i := 0 to |rows|
      invariant forall j :: 0 <= j < i ==>
          rows[j].entryDate == rows[0].entryDate && rows[j].exitDate == rows[0].exitDate
    {
      if rows[i].entryDate != rows[0].entryDate || rows[i].exitDate != rows[0].exitDate {
        return false;
      }
    }
    shared := true;
  }

  /** The rows as items, or the first row that is refused. */
  method ReadItems(rows: seq<Row>, k: int, prices: Prices) returns (error: Option<Error>, items: seq<Item>)
    requires k > 0 && PositivePrices(prices)
    ensures error.None? <==> forall i :: 0 <= i < |rows| ==> RowAccepted(rows[i], k, prices)
    ensures error.None? ==> |items| == |rows| && forall i :: 0 <= i < |rows| ==> items[i] == ItemOf(rows[i], k, prices)
  {
    items := [];
    for i := 0 to |rows|
      invariant |items| == i
      invariant forall j :: 0 <= j < i ==> RowAccepted(rows[j], k, prices) && items[j] == ItemOf(rows[j], k, prices)
    {
      if (rows[i].ticker, rows[i].entryDate) !in prices {
        return Some(MissingEntryClose), items;
      }
      var item := ItemOf(rows[i], k, prices);
      if Abs(rows[i].target - item.target) > Tolerance || Abs(rows[i].quantity - item.quantity) > Tolerance {
        return Some(BasisMismatch), items;
      }
      var repeated := RepeatsAction(rows[i].accruals);
      if repeated {
        return Some(RepeatedAction), items;
      }
      items := items + [item];
    }
    error := None;
  }

  method RepeatsAction(accruals: seq<Accrual>) returns (repeated: bool)
    ensures repeated <==> !DistinctActions(accruals)
  {
    var seen: set<string> := {};
    for i := 0 to |accruals|
      invariant seen == set j | 0 <= j < i :: accruals[j].key
      invariant forall m, n :: 0 <= m < n < i ==> accruals[m].key != accruals[n].key
    {
      if accruals[i].key in seen {
        return true;
      }
      seen := seen + {accruals[i].key};
    }
    return false;
  }
}
