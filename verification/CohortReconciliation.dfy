/** One cohort from end to end: ledger rows and selected paths go in, both daily ledgers replay them, and the
    component comparer reads what they wrote. */
module CohortReconciliation {
  import opened Rounding
  import opened Optional
  import opened Books
  import opened CohortLedger
  import opened Divergence
  import opened ComponentTolerance
  import opened ComponentCompare
  import opened ComponentVerdict
  import opened Closings
  import opened CohortRun
  import opened DistributionCounts
  import opened NameVerdict
  import FeeDrift
  import PrimaryDaily
  import ReferenceDaily

  /** What the component reconciliation reports of one cohort. */
  datatype Report = Report(cohorts: seq<Discrepancy<int>>, names: seq<Discrepancy<NameKey>>)

  /** The cohort, its sessions, and at most a million quanta of rounding on the way to the terminal NAV. */
  predicate Replayable(entries: seq<Entry>, k: int, days: seq<int>, prices: Prices, sessions: seq<int>, start: nat) {
    && CohortMatches(entries, k, days, prices) && PositivePrices(prices) && InSessions(days, sessions, start)
    && var e := ExactBook(entries, k, days, prices);
    && 6.0 * k as real + Accruals(e, e.Last()) <= 2_000_000.0
  }

  /** What the cohort level reports, decided before anything is run: nothing exactly when every session is within the
      tolerance; something when the fee rule fails, and without distributions only then; nothing while four fee residues
      and the distributions stay under ten half-quanta. */
  predicate Foreseen(e: Book, k: int, distributions: nat, found: seq<Discrepancy<int>>)
    requires k > 0
  {
    && (found == [] <==> forall t :: 0 <= t < |e.path| ==> SessionWithin(e, t))
    && (found == [] ==> FeeDrift.FeeRule(k))
    && (distributions == 0 ==> (found == [] <==> FeeDrift.FeeRule(k)))
    && (FeeDrift.UnderTen(k, distributions) ==> found == [])
  }

  /** And the constituent level: nothing exactly when every name is within the tolerance; nothing while each name's
      distributions and fee stay under ten half-quanta. */
  predicate NamesForeseen(e: Book, k: int, entries: seq<Entry>, found: seq<Discrepancy<NameKey>>)
    requires k > 0
  {
    && (found == [] <==> NamesWithin(e))
    && ((forall i :: 0 <= i < |entries| ==> FeeDrift.FeeHalves(k) + |entries[i].path.distributions| as real < 10.0) ==>
          found == [])
  }

  /** Both ledgers complete on a matching cohort, and the comparer's verdict on what they wrote is the foreseen one. */
  method ReplayAndReconcile(entries: seq<Entry>, k: int, days: seq<int>, prices: Prices, sessions: seq<int>, start: nat,
                            order: (int, int) -> bool, nameOrder: (NameKey, NameKey) -> bool)
    returns (r: Report)
    requires Replayable(entries, k, days, prices, sessions, start)
    ensures Foreseen(ExactBook(entries, k, days, prices), k, Distributions(entries), r.cohorts)
    ensures NamesForeseen(ExactBook(entries, k, days, prices), k, entries, r.names)
  {
    ghost var e := ExactBook(entries, k, days, prices);
    var primary, reference := ReplayBoth(entries, k, days, prices, sessions, start);
    CohortIsRegular(entries, k, days, prices);
    NamesAreDistinct(entries, k, days, prices);
    var cohorts := CompareCohorts(e, primary, reference, order);
    var names := CompareNames(e, primary, reference, nameOrder);
    r := Report(cohorts, names);
    VerdictForeseen(entries, k, days, prices, order);
    NameVerdictForeseen(entries, k, days, prices, nameOrder);
  }

  lemma NamesAreDistinct(entries: seq<Entry>, k: int, days: seq<int>, prices: Prices)
    requires CohortMatches(entries, k, days, prices)
    ensures ExactBook(entries, k, days, prices).DistinctNames()
  {
  }

  /** Both daily ledgers of the cohort run to the end. */
  method ReplayBoth(entries: seq<Entry>, k: int, days: seq<int>, prices: Prices, sessions: seq<int>, start: nat)
    returns (primary: seq<Session>, reference: seq<Session>)
    requires Replayable(entries, k, days, prices, sessions, start)
    ensures var e := ExactBook(entries, k, days, prices);
            && primary == PrimaryDaily.FixedSessions(Written(e), |e.path|)
            && reference == ReferenceDaily.FixedSessions(e, |e.path|)
  {
    var terminal := Money(1.0 + Ledger(BuiltRows(entries, k)));
    PrimaryCompletes(entries, k, days, prices, sessions, start);
    RowsAccepted(entries, k, days, prices, sessions, start, terminal);
    var summary := Some(PrimaryDaily.Summary(k, terminal));
    var mine := PrimaryDaily.CohortDailyRows(RowsOf(entries, k, |days| - 1), summary, sessions, prices);
    ReferenceCompletes(entries, k, days, prices, sessions, start);
    PathsDistinct(entries, k, days, prices);
    var theirs := ReferenceDaily.BuildDailyStates(PathsOf(entries, k, days), sessions, prices);
    return mine.sessions, theirs.sessions;
  }

  lemma PathsDistinct(entries: seq<Entry>, k: int, days: seq<int>, prices: Prices)
    requires CohortMatches(entries, k, days, prices)
    ensures var rows := PathsOf(entries, k, days);
            && ReferenceDaily.DistinctSelected(ReferenceDaily.NamesOf(rows))
            && rows != [] && forall i :: 0 <= i < |rows| ==> rows[i].horizon > 0
  {
  }

  /** The cohort level: projected and compared. */
  method CompareCohorts(ghost e: Book, primary: seq<Session>, reference: seq<Session>, order: (int, int) -> bool)
    returns (found: seq<Discrepancy<int>>)
    requires primary == PrimaryDaily.FixedSessions(Written(e), |e.path|)
    requires reference == ReferenceDaily.FixedSessions(e, |e.path|)
    ensures found == CohortFindings(e, order)
  {
    var ps := ComponentCohorts(primary);
    var rs := ComponentCohorts(reference);
    var level := new Reconciliation<int>();
    var _ := level.CompareLevel("cohort", ps, rs, order, 0, 1, 10);
    found := level.discrepancies;
  }

  /** The constituent level: projected, shaped and compared. */
  method CompareNames(ghost e: Book, primary: seq<Session>, reference: seq<Session>, order: (NameKey, NameKey) -> bool)
    returns (found: seq<Discrepancy<NameKey>>)
    requires e.DistinctNames()
    requires primary == PrimaryDaily.FixedSessions(Written(e), |e.path|)
    requires reference == ReferenceDaily.FixedSessions(e, |e.path|)
    ensures found == NameFindings(e, order)
  {
    var ps, rs := NameRows(primary, |primary|), NameRows(reference, |reference|);
    assert ps == PrimaryNames(e, |e.path|) && rs == ReferenceNames(e, |e.path|);
    FindingsByPairs(e, order);
    found := CompareRows(ps, rs, order);
  }

  method CompareRows(ps: seq<Row<NameKey>>, rs: seq<Row<NameKey>>, order: (NameKey, NameKey) -> bool)
    returns (found: seq<Discrepancy<NameKey>>)
    requires Shaped(ps, 1, 11) && Shaped(rs, 1, 11)
    ensures found == if DistinctKeys(ps) && DistinctKeys(rs) then Findings(ps, rs, order, 4, 1, 11) else []
  {
    var level := new Reconciliation<(int, string)>();
    var _ := level.CompareLevel("constituent", ps, rs, order, 4, 1, 11);
    found := level.discrepancies;
  }

  /** A matching cohort charges the ledger's fees. */
  lemma {:induction false} CohortFees(entries: seq<Entry>, k: int, days: seq<int>, prices: Prices)
    requires CohortMatches(entries, k, days, prices)
    ensures FeeDrift.LedgerFees(ExactBook(entries, k, days, prices), k)
  {
    CohortIsRegular(entries, k, days, prices);
  }

  /** One without distributions accrues nothing. */
  lemma {:induction false} NothingDistributed(entries: seq<Entry>, k: int, days: seq<int>, prices: Prices)
    requires CohortMatches(entries, k, days, prices) && Distributions(entries) == 0
    ensures FeeDrift.AccrualFree(ExactBook(entries, k, days, prices))
  {
    var e := ExactBook(entries, k, days, prices);
    forall i | 0 <= i < |e.items| ensures e.items[i].accruals == [] {
      PartOfAll(entries, i);
    }
  }

  lemma {:induction false} PartOfAll(entries: seq<Entry>, i: nat)
    requires i < |entries|
    ensures |entries[i].path.distributions| <= Distributions(entries)
  {
    if i < |entries| - 1 {
      PartOfAll(entries[..|entries| - 1], i);
    }
  }

  lemma {:induction false} VerdictForeseen(entries: seq<Entry>, k: int, days: seq<int>, prices: Prices,
                                           order: (int, int) -> bool)
    requires CohortMatches(entries, k, days, prices)
    ensures var e := ExactBook(entries, k, days, prices);
            Foreseen(e, k, Distributions(entries), CohortFindings(e, order))
  {
    var e := ExactBook(entries, k, days, prices);
    CohortFees(entries, k, days, prices);
    CohortLevelVerdict(e, order);
    if Distributions(entries) == 0 {
      NothingDistributed(entries, k, days, prices);
    }
    FeeRuleVerdict(e, k, order);
    if FeeDrift.UnderTen(k, Distributions(entries)) {
      AccrualsAreCounted(entries, k, days, prices);
      FewDistributionsPass(e, k, Distributions(entries), order);
    }
  }

  lemma {:induction false} FewDistributionsPass(e: Book, k: int, a: nat, order: (int, int) -> bool)
    requires FeeDrift.LedgerFees(e, k) && Accruals(e, e.Last()) <= a as real && FeeDrift.UnderTen(k, a)
    ensures CohortFindings(e, order) == []
  {
    forall t | 0 <= t < |e.path| ensures FeeDrift.HalfQuanta(e, k, t) < 10.0 {
      AccrualsGrow(e, t);
      FeeDrift.FourResidues(e, k, t);
    }
    FewHalvesVerdict(e, k, order);
  }

  lemma {:induction false} NameVerdictForeseen(entries: seq<Entry>, k: int, days: seq<int>, prices: Prices,
                                               order: (NameKey, NameKey) -> bool)
    requires CohortMatches(entries, k, days, prices)
    ensures var e := ExactBook(entries, k, days, prices);
            e.DistinctNames() && NamesForeseen(e, k, entries, NameFindings(e, order))
  {
    var e := ExactBook(entries, k, days, prices);
    CohortFees(entries, k, days, prices);
    NamesAreDistinct(entries, k, days, prices);
    NameLevelVerdict(e, order);
    if forall i :: 0 <= i < |entries| ==> FeeDrift.FeeHalves(k) + |entries[i].path.distributions| as real < 10.0 {
      forall i | 0 <= i < |e.items| ensures FeeDrift.FeeHalves(k) + AppliedTo(e, i, e.Last()) as real < 10.0 {
        AppliedIsCount(entries, k, days, prices, i);
      }
      LedgerNamesPass(e, k);
    }
  }
}
