# The PEAD money path, verified

This project models the arithmetic and the bookkeeping behind one research programme: a post-earnings-announcement
drift study that ranks a cross-section by its earnings surprise, holds the two tails for a fixed number of sessions,
and books every unit of cash the portfolio would have paid or received. Almost everything in that programme is computed
twice, by implementations that share no code, and the two results are then reconciled. The theorems say when the two
must agree, how far rounding can drive them apart, and which inputs make them part.

`dafny verify dfyconfig.toml` checks the whole project.

## What is modelled

**Money.** `Rounding` defines half-even rounding to the money grid of 1e-18 and the quantity grid of 1e-24
(roundTiesToEven, section 4.3.1 of IEEE 754-2008). Amounts are reals; intermediate arithmetic is exact and only
serialization rounds. `Sums` and `Residues` hold the sums and remainders the bounds need.

**The two daily ledgers.** `Books` gives the closed form of a cohort: what each name and the cohort hold, owe and are
worth at every session. `PrimaryDaily` and `ReferenceDaily` are the two session loops, written as loops and proved
against that closed form. `BookLaws` proves conservation, `DailyChecks` says when the daily identity check can fire,
`Lockstep` that the two loops agree exactly, `Divergence` how far serialized inputs drive them apart,
`ComponentTolerance` and `FeeDrift` what that means for the comparison at 5e-18.

**The execution ledger.** `ExecutionLedger` builds and validates constituent rows, `LedgerValidity` proves that what is
built passes, and when it does not; `CohortLedger` bounds a cohort's rounding and `CohortSizes` finds the sizes its
128-quantum check is safe for. `Closings` and `CohortRun` join all three: the one-shot ledger, the session loop and the
event loop close at the same NAV, and both daily ledgers complete on a cohort the execution ledger produced, as long as
three quanta a name and half a quantum an accrual stay under 1e-12. `ComponentCompare` is the comparer, a class whose
list of discrepancies and dictionary of maxima grow in place; `ComponentVerdict` and `NameVerdict` apply it to the two
ledgers and `CohortReconciliation` runs the whole chain. `FlatCohorts` and `PayingCohorts` are cohorts of every size,
without distributions and with; `DistributionCounts` counts them and `ToleranceLimits` says how many the tolerance bears.

**The reconciler.** `Documents` is the JSON normal form, `Contracts` the frozen contract and its payload, `Observations`,
`Findings`, `Reconciler` and `Comparison` the parse and the comparison, `Verdicts` the meaning of a pass, `Evidence` the
artifact and its replay. `AtomicStore` is a state machine of any number of writers, each moving step by step through
temporary file, write, sync, link, compare and unlink, with errors, crashes and loss of power in between;
`EvidenceStore` publishes artifacts through it. `Texts`, `TextOrder`, `Ordering` and `Grouping` hold the string, sorting
and grouping facts used throughout.

**The twin reconstructions.** `Vintages`, `Consensus` and `Matching` are the two matchers of actuals to consensus
vintages. `CashPaths`, `CashReturns`, `CashLoops` and `CashLaws` are the two cash-return reconstructions, `CashRefusals`
says exactly when they part, `DailyDistributions` is the third look the event ledger takes at the same dividends.

**No look-ahead.** `Signals` follows an announcement to a formation record, `Selection`, `LockedPortfolio` and
`SelectionTwins` freeze the tails in three implementations, `KnownBy` is the conservative consensus cutoff, `DailyInputs`
the frozen input snapshot and what it guarantees the ledgers.

**What each outcome says.** A specification that both sides of a comparison share could be wrong on both sides at once.
So each main operation has its outcome stated a second time, in its own inputs and in plain arithmetic, with none of the
functions the specification is built from, and proved to be that specification for every input. `WrittenRows` does so for
the rows of the daily ledgers and `BookEvidence` for the books they are read into and their checks; `LedgerEvidence` for
the execution ledger's rows, validator and summaries; `ComponentEvidence` and `ProjectionEvidence` for the component
comparer; `ContractEvidence`, `ObservationEvidence` and `FindingEvidence` for the reconciler's contract, its inputs and
what it records; `EventEvidence` and `ExclusionEvidence` for the matchers; `CashEvidence` and `DailyEvidence` for the cash
returns; `SignalEvidence`, `SelectionEvidence`, `KnownByEvidence` and `SnapshotEvidence` for the look-ahead rules.

## What turned out otherwise

Where the code and its stated intention part, the model follows the code and a lemma shows the input.

- The component tolerance of five quanta is not enough for every leg size: each written fee misses 0.003/k, and with
  seven names per leg four such errors add up to twelve quanta (`FeeDrift.SevenNamesFail`,
  `FlatCohorts.SevenFlatNamesFail`). `FeeDrift.FeeRuleNecessary` names the leg sizes that can pass at all.
- Nor for every number of distributions: a cohort of k names per leg passes for certain with nine when k divides 3e15,
  with one when it misses by one, and ten, or two, can fail (`ToleranceLimits.SafeDistributions`,
  `ToleranceLimits.PayerFails`).
- The validator's 32 quanta bear 65 distributions on one path; from 66 on a built row can be rejected
  (`LedgerValidity.SafeUpTo65`, `LedgerValidity.ManyAreRejected`).
- The builder tolerates a cash total 1e-12 away from its distributions, the validator 32e-18. A total added up in binary
  floating point falls between the two (`LedgerValidity.FloatSummedIsRejected`).
- The 128-quantum check can be relied on for up to 129 names per leg and for no larger cohort: from 130 on there are
  accepted paths whose rows all write nothing and whose returns are 130 quanta away (`CohortSizes.SafeUpTo129`,
  `CohortSizes.ShortOfFeesFails`).
- A candidate return the builder accepts at the edge of 1e-12 can be pushed out of it by being written, and the
  validator then rejects the row (`LedgerValidity.RoundedOutIsRejected`).
- Previous prices are remembered by ticker, not by name: a ticker held twice loses its second price move
  (`DailyChecks.RepeatedTickerFires`).
- The two loops treat a distribution dated on the entry session differently (`Lockstep.EntryAccrualGap`); the execution
  ledger never produces one.
- A NaN observation key becomes its own tag and passes as a valid key (`Documents.NonFiniteKeyPasses`).
- The two matchers report different exclusion reasons when the actual's currency is a blank string
  (`Consensus.ReasonsAgree`, `Consensus.BlankAgainstDollar`).
- The reference refuses a bad dividend before it knows whether the path resolves; the primary only when it reaches that
  ex-date (`CashRefusals.RaiseDifference`, `CashRefusals.PartingParts`; `CashRefusals.Difference` for all differences).
- The daily reference expects every cohort above the name floor to be admitted, so it accepts no input in which a cohort
  was excluded for an unresolved path (`SelectionTwins.StatusesAgree`, `SelectionTwins.UnresolvedCohortParts`).
- The evidence store syncs the file but not its directory (`AtomicStore.NameMayBeLost`,
  `AtomicStore.FinishedCallIsLost`).

## Parameters

Nothing here reads a clock, a file or the network. These come in as parameters, and the theorems hold for every value of
them: the digest function and the order of canonical JSON texts (`Evidence`, any total order of documents), the byte
encoding of documents (`EvidenceStore`), upper-casing, the text of a non-text ticker, the clock parser and the conversion
to UTC (`Consensus.Rules`), the time zone (`KnownBy.Zone`, and the four to five hours between Eastern time and UTC in
`Signals`), and the order of canonical keys in the component comparer.

## Model

| member | source | states |
|---|---|---|
| Rounding.HalfEven | analysis/pead_execution_ledger.py:315-323 | `quantize` under ROUND_HALF_EVEN: the result is within half a unit, and on a tie it is even |
| Rounding.HalfEvenUnique | analysis/pead_execution_ledger.py:315-323 | those two facts determine the integer: there is one half-even rounding |
| Rounding.MoneyGap | analysis/pead_daily_reconciliation.py:672-692 | writing two values as money adds at most one quantum to their distance |
| PrimaryDaily.MarkName | analysis/pead_daily_ledger.py:286-356 | one name on one session: order, position, fee, accrual, market value and P&L equal the closed forms of the book, the price move taken from the last close remembered under the name's ticker |
| PrimaryDaily.MarkSession | analysis/pead_daily_ledger.py:286-356 | the inner loop over names: totals, receivables and the remembered closes after it are those of the whole cohort; it stops at the first missing close |
| PrimaryDaily.CloseSession | analysis/pead_daily_ledger.py:358-400 | cash, receivable, fees and NAV after the session are the closed forms of the book at that session |
| PrimaryDaily.ReplaySessions | analysis/pead_daily_ledger.py:267-406 | the session loop finishes exactly when every close is present, every daily check passes and the terminal NAV matches; its rows are then the serialized closed-form book |
| PrimaryDaily.CohortDailyRows | analysis/pead_daily_ledger.py:167-407 | a cohort is replayed exactly when it has a summary, two full legs, one exact horizon and acceptable rows, and the loop's own checks pass; every written field is then on its grid within half a unit of its own book quantity, gross long of the positive market values and gross short of the negative ones |
| PrimaryDaily.DistinctIsUnseen | analysis/pead_daily_ledger.py:311-356 | with distinct tickers no name reads another name's remembered close |
| WrittenRows.NameIsReported | analysis/pead_daily_ledger.py:294-355 | each number of a name's row is on the money or quantity grid within half a unit of its own quantity (close, target, order, position, order flow, accrual, receivable, market value, P&L, fee, net P&L), and the row lists exactly the distributions of its day |
| WrittenRows.CohortIsReported | analysis/pead_daily_ledger.py:358-389 | each number of a cohort row is within half a quantum of its own total: cash, receivable, market value, the two gross exposures, NAV as their sum, its change over the session, the P&L so far and the fees |
| PrimaryDaily.BookIsReported | analysis/pead_daily_ledger.py:286-400 | at every session the written rows report the book so, gross long being the summed positive market values and gross short the negated negative ones |
| BookEvidence.AcceptedTells | analysis/pead_daily_ledger.py:185-242 | the primary ledger accepts exactly two full legs sharing their dates, over sessions the horizon apart, each row's target and quantity within 1e-12 of the signed k-th and its shares at the entry close, no distribution twice |
| BookEvidence.BookTells | analysis/pead_daily_ledger.py:205-264 | the book holds the rows in order: ticker, name, leg, fees and distributions as the row has them, shares whose cost at the entry close is the signed k-th of the capital, the sessions from entry to exit |
| ReferenceDaily.EventName | analysis/pead_daily_reference.py:803-838 | one name's events change its position, receivable and fees and the cohort cash to the closed forms; nothing accrues at entry |
| ReferenceDaily.MeasureExposure | analysis/pead_daily_reference.py:856-891 | the sums over the maps are the market value, the balances, each leg's exposure and the number of open positions |
| ReferenceDaily.EventLoop | analysis/pead_daily_reference.py:795-945 | after every session the maps and totals, and so the rows, are the closed-form book, serialized once |
| ReferenceDaily.CheckExits | analysis/pead_daily_reference.py:951-978 | an error is reported unless every exit price and rebuilt return matches its source and the terminal P&L is within 1e-12 of the sum of the constituents' economics |
| ReferenceDaily.BuildDailyStates | analysis/pead_daily_reference.py:714-978 | a cohort is accepted exactly when every path runs between two sessions its horizon apart with a bar on each, the cohort is two full tails over one path, entries and exits match their sources and the terminal P&L matches the constituents; every written field is then on its grid within half a unit of its own book quantity, the gross exposures of the two legs |
| ReferenceDaily.BookIsReported | analysis/pead_daily_reference.py:795-945 | at every session the written rows report the book, field by field within half a unit, gross long and gross short being the exposures of the two legs |
| BookEvidence.SoundTells | analysis/pead_daily_reference.py:714-762 | the event ledger accepts exactly two full tails over one span of sessions, the horizon long, with a bar on each |
| BookEvidence.CohortBookTells | analysis/pead_daily_reference.py:763-794 | the book holds the selected paths: shares whose cost at the entry close is the target, 0.003/k as either fee, each distribution times the shares |
| BookEvidence.SourcedTells | analysis/pead_daily_reference.py:764-975 | a path passes its source checks exactly when entry and exit close are the source's prices, the target is there, and the return that takes the entry to exit plus cash is the source's, each to 1e-12 |
| BookEvidence.ClosingTells | analysis/pead_daily_reference.py:951-978 | the cohort closes exactly when its written P&L is, to 1e-12, what shares times price change and cash have earned less two fees a name |
| BookLaws.Conservation | analysis/pead_daily_ledger.py:286-363 | after every session NAV is one plus all price moves and accruals so far minus all fees so far |
| BookLaws.ContributionsAddUp | analysis/pead_daily_ledger.py:363-368 | one session's P&L is the sum of the names' exact contributions |
| BookLaws.FlatAtExit | analysis/pead_daily_ledger.py:402-406 | at exit every position is zero and so is the market value |
| DailyChecks.GapIsRepeatedMoves | analysis/pead_daily_ledger.py:311-368 | what the booked contributions miss of the session's P&L is exactly the price moves of tickers already handled that session |
| DailyChecks.DailyCheckFollowsRepeats | analysis/pead_daily_ledger.py:364-368 | with n names the 1e-12 daily check passes while the repeated tickers' moves stay n half-quanta below 1e-12 and fires when they exceed it by as much |
| DailyChecks.DistinctTickersPass | analysis/pead_daily_ledger.py:364-368 | with distinct tickers, and up to two million names, the daily check cannot fire at any session of any price path |
| DailyChecks.RepeatedTickerFires | analysis/pead_daily_ledger.py:311-316 | counterexample: one ticker held long and short loses its second price move and the check fires |
| Lockstep.SameGross | analysis/pead_daily_reference.py:861-876 | for positive prices, splitting gross exposure by the sign of the market value is splitting it by leg |
| Lockstep.EntryAccrualGap | analysis/pead_daily_reference.py:809-815 | accruals dated at entry are exactly what separates the two receivables: one loop books them, the other skips them |
| Lockstep.SameSession | analysis/pead_daily_reference.py:798-908 | in exact arithmetic both loops give the same orders, positions, accruals, receivables, cash, fees, NAV, P&L and gross legs at every session |
| Lockstep.SameRows | analysis/pead_daily_reference.py:892-945 | so do the rows as written |
| Divergence.ReceivableDrift | analysis/pead_daily_ledger.py:303-309 | the receivables drift by at most half a quantum per serialized accrual |
| Divergence.CashDriftIsFees | analysis/pead_daily_ledger.py:358-361 | cash differs by the drift of the serialized fees and by nothing else |
| Divergence.DivergenceBound | analysis/pead_daily_ledger.py:358-363 | after any session, with f serialized fees and a serialized accruals, cash is within f/2 quanta, receivable within a/2, NAV within (a+f)/2; f counts for nothing when the fee is on the grid |
| Divergence.DailyDrift | analysis/pead_daily_ledger.py:362-363 | one session's P&L drifts by at most half a quantum per fee and per accrual of that session |
| ComponentTolerance.CohortRowWithin | analysis/pead_daily_reconciliation.py:106-106 | whatever the fees, a written cohort row survives the 5e-18 comparison whenever a + f is at most 9, and whenever a is at most 9 if the fees are on the grid |
| ComponentTolerance.NameRowWithin | analysis/pead_daily_reconciliation.py:726-740 | a written name row survives while at most eight accruals, nine with an on-grid fee, have been applied to the name |
| FeeDrift.SmallResidue | analysis/pead_execution_ledger.py:759-760 | k written fees miss 0.003 by at most one quantum exactly when 3e15 leaves remainder 0, 1 or k-1 modulo k |
| FeeDrift.SessionAgreement | analysis/pead_daily_reconciliation.py:672-692 | without distributions, the rows of two correct ledgers agree within the tolerance at session t exactly when the accumulated fee residue is at most five quanta |
| FeeDrift.CashDecides | analysis/pead_daily_reconciliation.py:672-692 | whatever the cohort distributes, they agree at session t only if the accumulated fee residue is at most five quanta: cash sees nothing but the fees |
| FeeDrift.FeeRuleNecessary | analysis/pead_daily_reconciliation.py:744-764 | two correct ledgers of any cohort pass at every session only if 3e15 leaves remainder 0, 1 or k-1 modulo the names per leg |
| FeeDrift.FeeRuleDecides | analysis/pead_daily_reconciliation.py:744-764 | and without distributions exactly then |
| FeeDrift.SevenNamesFail | analysis/pead_daily_reconciliation.py:106-106 | counterexample: with seven names per leg the written fees exceed 1.2% by twelve quanta and the comparison fails, whatever the cohort distributes |
| FeeDrift.SmallerLegsHaveNoResidue | analysis/pead_execution_ledger.py:759-760 | no smaller leg has a fee residue at all |
| FeeDrift.FewHalvesPass | analysis/pead_daily_reconciliation.py:672-692 | a session of any cohort passes while two half-quanta per quantum of accumulated fee residue and one per accrual stay under ten |
| FeeDrift.UnderTenByRemainder | analysis/pead_daily_reconciliation.py:106-106 | four residues and a accruals stay under ten half-quanta if and only if k divides 3e15 and a is at most nine, or misses it by one and a is at most one |
| ExecutionLedger.EconomicPath | analysis/pead_execution_ledger.py:657-742 | a path is accepted exactly when price, terminal value, return, interval and cash-total checks all hold and no distribution repeats; the returned parts are those of the path |
| ExecutionLedger.ValidateConstituent | analysis/pead_execution_ledger.py:1268-1347 | a row is accepted exactly when its basis, every accrual, both running totals and the money equations hold within their quanta |
| LedgerEvidence.PathTells | analysis/pead_execution_ledger.py:657-742 | a path is accepted exactly when prices, terminal value, both returns and the cash total are borne out to 1e-12 by the return that takes entry to exit plus cash, every distribution is positive and inside the interval, none twice |
| LedgerEvidence.BuildTells | analysis/pead_execution_ledger.py:745-819 | a written row reports the path: shares worth the signed k-th at entry, what price and distributions bring on them, the return, two fees of 0.003/k and the net of all, each within half a unit of its grid |
| LedgerEvidence.RowTells | analysis/pead_execution_ledger.py:1268-1347 | the validator accepts exactly the rows whose written numbers satisfy the basis, accrual, total and money equations, stated in arithmetic with each tolerance as a number |
| LedgerValidity.QuantityProduct | analysis/pead_execution_ledger.py:1340-1341 | multiplying by the written quantity instead of the exact one costs at most thirty quanta for moves up to 6e7 |
| LedgerValidity.DoubledFee | analysis/pead_execution_ledger.py:1339-1339 | the one-quantum check: a doubled fee and twice the written fee are at most one quantum apart, for every fee |
| LedgerValidity.BuiltVerdict | analysis/pead_execution_ledger.py:1281-1347 | for every accepted on-grid path of moderate size the validator accepts the built row if and only if the written candidate return is within 1e-12 of the rebuilt one, the cash total is within 32 quanta of the summed distributions and the distribution P&L within 32 of the summed accruals |
| LedgerValidity.CandidateDecides | analysis/pead_execution_ledger.py:1297-1302 | with cash equal to the summed amounts and at most 65 distributions, if and only if the written candidate return is within 1e-12 |
| LedgerValidity.BuiltIsValid | analysis/pead_execution_ledger.py:759-822 | so every row built from such a path whose candidate return is on the grid passes the validator |
| LedgerValidity.SafeUpTo65 | analysis/pead_execution_ledger.py:1335-1343 | the validator accepts every such row of at most n distributions if and only if n is at most 65 |
| LedgerValidity.ManyAreRejected | analysis/pead_execution_ledger.py:785-791 | counterexample for every n from 66 on: n dividends of three quanta on half a share are written as two each, 33 quanta or more from the distribution P&L |
| LedgerValidity.RoundedOutIsRejected | analysis/pead_execution_ledger.py:692-703 | counterexample: an accepted candidate return 0.3333333333323333334 against a third is rounded out of the tolerance and the row is rejected, in either leg and any cohort size |
| LedgerValidity.CashGapDecides | analysis/pead_execution_ledger.py:1327-1328 | when (n+1) + 64 times the shares held is at most 64, for n distributions, the validator accepts if and only if the written candidate return is within 1e-12 and the cash total within 32 quanta of the summed distributions, although the builder accepts a gap of 1e-12; BuiltVerdict covers every other path |
| LedgerValidity.FloatSummedIsRejected | analysis/pead_execution_ledger.py:732-733 | counterexample: dividends 0.1 and 0.2 with the float total 0.30000000000000004 are accepted by the builder and rejected by the validator |
| CohortLedger.CohortProducts | analysis/pead_execution_ledger.py:836-904 | a cohort is summarized exactly when it is exhaustive, shares its dates and its P&L is within 128 quanta of the factor return; the summary is then fixed |
| LedgerEvidence.CohortTells | analysis/pead_execution_ledger.py:836-904 | a cohort is summarized exactly when it is two full legs over the same days whose summed P&L is within 128 quanta of mean long less mean short return less 1.2%; the summary reports these five amounts within half a quantum |
| CohortLedger.NetIsReturn | analysis/pead_execution_ledger.py:772-776 | a path's exact net P&L is its signed share of its return minus two fees |
| CohortLedger.GapBound | analysis/pead_execution_ledger.py:315-323 | rounding a k-th of a value and rounding the value itself leave k times the one at most k/2 quanta from the other, (k-1)/2 when k is 1 modulo 4 and (k+1)/2 when k is 3 modulo 4 |
| CohortLedger.RoundingBudget | analysis/pead_execution_ledger.py:861-871 | the sum of written constituent P&L is within twice that gap, at most k+1 quanta, of the factor return minus 1.2% |
| CohortSizes.BudgetSuffices | analysis/pead_execution_ledger.py:870-871 | so the 128-quantum check cannot fail for k up to 129 |
| CohortSizes.ShortOfFeesFails | analysis/pead_execution_ledger.py:870-871 | counterexample for every k from 130 on: names that earn their two fees less 65 quanta write nothing each and leave a difference of 130 quanta; every path is accepted by the builder |
| CohortSizes.SafeUpTo129 | analysis/pead_execution_ledger.py:870-871 | the check passes every cohort of k accepted names per leg if and only if k is at most 129 |
| CohortSizes.UnmovedVerdict | analysis/pead_execution_ledger.py:870-871 | for a cohort whose prices did not move the check passes if and only if 6e15 modulo k is within 64 of a multiple of k |
| CohortSizes.LargeCohortRejected | analysis/pead_execution_ledger.py:870-871 | counterexample: a cohort of 148 names per leg that did not move at all is rejected |
| CohortSizes.BuiltSummaryValid | analysis/pead_execution_ledger.py:1391-1416 | the P&L fields of the summary of a built cohort of up to 129 names per leg pass the validator |
| Closings.AccruedAtExit | analysis/pead_daily_ledger.py:303-309 | by exit a name has accrued its shares times its cash total |
| Closings.NameCloses | analysis/pead_execution_ledger.py:772-776 | a name's replayed P&L is the one-shot ledger's exact net P&L |
| Closings.NavCloses | analysis/pead_daily_ledger.py:402-404 | the replayed exact NAV at exit is one plus the constituent ledger's P&L |
| Closings.ClosingIsFactorReturn | analysis/pead_execution_ledger.py:865-878 | the exact closing NAV is one plus the mean long return minus the mean short return minus 0.012 |
| CohortRun.TerminalBound | analysis/pead_daily_ledger.py:402-404 | the written replay ends within 3k + a/2 quanta of the written ledger |
| CohortRun.CohortIsRegular | analysis/pead_daily_reference.py:763-793 | a cohort whose ledger rows and selected paths describe the same holdings meets every condition of the lockstep theorem |
| CohortRun.RowsAccepted | analysis/pead_daily_ledger.py:210-265 | the primary loop accepts the execution ledger's rows and replays exactly the written book |
| CohortRun.PrimaryCompletes | analysis/pead_daily_ledger.py:167-407 | end to end: on every matching cohort with 3k + a/2 at most a million the primary ledger completes, with no refused row, missing close or failing check |
| CohortRun.ReferenceCompletes | analysis/pead_daily_reference.py:690-978 | and so does the event ledger: its paths are sound and every source check holds |
| CohortReconciliation.ReplayAndReconcile | analysis/pead_daily_reconciliation.py:695-764 | end to end: on a matching cohort both ledgers run, and what the comparer reports of their rows is known beforehand. Cohort level: nothing exactly when every session is within tolerance; something when the fee rule fails, and without distributions only then; nothing while four fee residues and the distributions stay under ten half-quanta. Constituent level: nothing exactly when every name is within tolerance, hence under ten half-quanta a name |
| DistributionCounts.AccrualsAreCounted | analysis/pead_daily_ledger.py:303-309 | by exit a matching cohort has accrued each of its distributions once |
| ToleranceLimits.SafeDistributions | analysis/pead_daily_reconciliation.py:744-764 | every ledger cohort of k names per leg and at most a distributions passes the cohort level if and only if four fee residues and a stay under ten half-quanta |
| ToleranceLimits.PayerFails | analysis/pead_daily_reconciliation.py:744-764 | counterexample for every k the fee rule admits: ten distributions that tie, two where there is a residue, put the two written NAVs six quanta apart |
| ToleranceLimits.SafeNameDistributions | analysis/pead_daily_reconciliation.py:715-743 | every ledger cohort of at most a distributions a name passes the constituent level if and only if a is at most nine, eight where 3e15/k is a half |
| ToleranceLimits.PayingNameFails | analysis/pead_daily_reconciliation.py:715-743 | counterexample for every k: one name with one distribution more |
| FlatCohorts.FlatMatches | analysis/pead_execution_ledger.py:759-822 | a matching cohort exists for every number of names per leg |
| FlatCohorts.FlatReplayable | analysis/pead_daily_reconciliation.py:695-764 | and, up to 333,333 names per leg, can be replayed and reconciled from end to end |
| FlatCohorts.FlatFails | analysis/pead_daily_reconciliation.py:744-764 | counterexample for every k outside the fee rule: the flat cohort |
| FlatCohorts.SevenFlatNamesFail | analysis/pead_daily_reconciliation.py:106-106 | counterexample: seven flat names per leg form a matching cohort on which the comparer reports a difference between two correct ledgers |
| ComponentCompare.NoFindings | analysis/pead_daily_reconciliation.py:645-692 | the comparer reports nothing exactly when both sides have the same keys, equal labels and exact numbers, and money within tolerance |
| ComponentCompare.MaximumIsLargest | analysis/pead_daily_reconciliation.py:673-675 | a recorded maximum bounds every difference of its field and is one of them unless it was there before |
| ComponentCompare.KeysAreSorted | analysis/pead_daily_reconciliation.py:645-645 | the keys of both sides are walked in sorted order, each once |
| ComponentCompare.Reconciliation.CompareRow | analysis/pead_daily_reconciliation.py:660-692 | comparing two rows appends exactly their findings to the shared list and raises each field's maximum |
| ComponentCompare.Reconciliation.CompareLevel | analysis/pead_daily_reconciliation.py:619-692 | a repeated key is refused before anything is recorded; otherwise list and maxima grow by exactly the level's findings and differences, key by key in sorted order, and earlier entries stay |
| ComponentEvidence.LevelTells | analysis/pead_daily_reconciliation.py:645-692 | whatever is listed is so and whatever is so is listed: which side lacks a key's row, which labels differ and from what to what, which numbers are apart by how much more than zero or 5e-18 |
| ComponentEvidence.LevelTellsOnce | analysis/pead_daily_reconciliation.py:645-692 | and nothing is listed twice |
| ComponentEvidence.MaximaTell | analysis/pead_daily_reconciliation.py:672-676 | a level enters, for each number, the largest distance between two rows of one key, and enters nothing if no rows meet |
| ComponentVerdict.ComponentCohorts | analysis/pead_daily_reconciliation.py:541-616 | the projected rows carry each session's money fields; missing checkpoint fees are the sum of that session's name fees |
| ComponentVerdict.CheckpointFeesAgree | analysis/pead_daily_reconciliation.py:550-571 | the checkpoint fees the primary writes are the sum of the name fees the reference writes, to the last digit |
| ProjectionEvidence.CohortsTell | analysis/pead_daily_reconciliation.py:541-616 | for any two lists of sessions the cohort level passes exactly when they are as many, count the same open positions, and cash, balance, market value, both gross exposures, NAV, session fees (written or summed), fees so far and both P&L are within 5e-18 |
| ProjectionEvidence.NamesTell | analysis/pead_daily_reconciliation.py:463-538 | the constituent level passes exactly when both have the same names on the same sessions, with equal distributions, price, target, order and position and the seven money fields within 5e-18 |
| ComponentVerdict.CohortLevelVerdict | analysis/pead_daily_reconciliation.py:744-764 | nothing is reported on the cohort level if and only if the two written cohort states are within tolerance at every session |
| ComponentVerdict.FewValuesPass | analysis/pead_daily_reconciliation.py:744-764 | whatever the fees, with a + f at most nine at every session nothing is reported on the cohort level |
| ComponentVerdict.FewHalvesVerdict | analysis/pead_daily_reconciliation.py:744-764 | with the ledger's fees, nothing is reported while residues and accruals stay under ten half-quanta |
| ComponentVerdict.FeeRuleVerdict | analysis/pead_daily_reconciliation.py:744-764 | nothing is reported on the cohort level of any cohort only if 3e15 leaves remainder 0, 1 or k-1 modulo the names per leg; without distributions exactly then |
| NameVerdict.NameLevelVerdict | analysis/pead_daily_reconciliation.py:715-743 | nothing is reported on the constituent level if and only if every name is within tolerance at every session |
| NameVerdict.NameLevelPasses | analysis/pead_daily_reconciliation.py:715-743 | every name is while none has more than eight written accruals, nine with an on-grid fee |
| NameVerdict.LedgerNamesPass | analysis/pead_daily_reconciliation.py:715-743 | with the ledger's fee, while each name's accruals and its fee's miss stay under ten half-quanta |
| Documents.Normalized | analysis/independent_replication.py:99-130 | the result is in normal form, and a value already in normal form is returned unchanged |
| Documents.NormalizedTwice | analysis/independent_replication.py:99-130 | normalising is idempotent on every value it accepts |
| Documents.KeyCarriesOnlyItself | analysis/independent_replication.py:170-190 | a valid key mentions a non-finite number if and only if the key itself is the non-finite tag |
| Documents.NonFiniteKeyPasses | analysis/independent_replication.py:170-190 | counterexample: a key that is NaN or infinite outright passes as valid, because the tag is looked for inside the key but not on it |
| Contracts.NormalizeExpectedKeys | analysis/independent_replication.py:203-219 | the loop returns the canonical keys or the fault of the first bad entry |
| Contracts.ExpectedKeysHold | analysis/independent_replication.py:203-219 | accepted keys are the given ones, normalised, valid, without repeats and in canonical order |
| Contracts.NewContractHolds | analysis/independent_replication.py:307-348 | a constructed contract has canonical digests, distinct identities, canonical keys and a non-negative tolerance for every numeric field |
| Contracts.ContractFromPayloadHolds | analysis/independent_replication.py:371-411 | whatever is read back from a document is a lawful contract |
| Contracts.ContractRoundTrip | analysis/independent_replication.py:350-411 | writing a lawful contract as a payload and reading it back gives the same contract |
| ContractEvidence.ContractTells | analysis/independent_replication.py:372-412 | a document is read as a contract exactly when it has the eight fields, schema 2, two digests in either case and padding, two identities that differ in name and code, its keys, and two non-negative numbers for each of the eight tolerances; and it is read as that contract |
| ContractEvidence.KeysTell | analysis/independent_replication.py:203-219 | the keys kept are the given ones, normalized, in order, none twice, each a non-empty object without a blank name anywhere or a tag inside |
| Observations.NormalizeObservations | analysis/independent_replication.py:431-447 | the loops return the canonical rows, sorted, or a type error exactly when the input is no list of acceptable mappings |
| ObservationEvidence.ObservationsTell | analysis/independent_replication.py:431-447 | a list comes back exactly when all its members are acceptable objects: one row for each, every field normalized, whole numbers among the eight made floats, the rows in order |
| Observations.OrderOfRowsIsIrrelevant | analysis/independent_replication.py:447-447 | the canonical list is the same whatever order the observations came in |
| Observations.StoredRowsReadBack | analysis/independent_replication.py:431-447 | a stored list of observations is canonical and normalises to itself |
| Reconciler.ParseRow | analysis/independent_replication.py:457-556 | the findings and the parsed fields of one observation are those of its specification |
| Reconciler.RowFindingsEmpty | analysis/independent_replication.py:457-547 | an observation leaves no finding exactly when it has the ten fields, a valid key, a boolean eligibility and eight finite numbers |
| Reconciler.ParseOutput | analysis/independent_replication.py:450-571 | groups, their order and all findings are those of the specification, duplicates included |
| Reconciler.GroupsAreWhole | analysis/independent_replication.py:556-556 | the dict of groups partitions the usable rows by key, and each key is listed once |
| Comparison.ExpectedCoverage | analysis/independent_replication.py:574-598 | the findings are the expected keys without a group and the groups without an expected key |
| Comparison.CompareOutputs | analysis/independent_replication.py:614-710 | the recorded list is all findings of both sides, coverage, absence and shared keys, written down and sorted |
| FindingEvidence.FindingsTell | analysis/independent_replication.py:450-710 | whatever is found is a fact about the two lists and every such fact is found: malformed observations, repeated, missing and surplus keys, eligibility that differs, numbers further apart than either allowance |
| FindingEvidence.RecordTells | analysis/independent_replication.py:450-710 | each recorded document tells one of these facts, with its side, its key, its occurrence and both values in place, and every fact is told |
| Verdicts.PassedMeansReconciled | analysis/independent_replication.py:614-742 | the reconciler is sound and complete: it records nothing if and only if each output has one valid observation per expected key and no others, eligibility is equal and each of the eight pairs x, y has abs(x-y) at most absolute + relative·abs(x) or absolute + relative·abs(y) |
| Verdicts.LargerAllows | analysis/independent_replication.py:603-611 | the allowance over the larger of two numbers admits a distance exactly when the allowance over one of them does |
| Verdicts.ReconciledIsSymmetric | analysis/independent_replication.py:606-611 | the verdict is the same when the two sides are swapped |
| Evidence.BuildEvidencePayload | analysis/independent_replication.py:713-742 | the payload built by the loops is the specified one |
| FindingEvidence.EvidenceTells | analysis/independent_replication.py:713-742 | the payload names the protocol, the data, the contract with its digest and the two outputs each under its own implementation; it records every fact about them and nothing else, and passes when there is none |
| Evidence.PassedFlag | analysis/independent_replication.py:740-741 | the stored flag `passed` is true if and only if the stored outputs are reconciled |
| Evidence.EvidenceIgnoresOrder | analysis/independent_replication.py:752-771 | permuting either observation list leaves the evidence as it is |
| Evidence.CreatedIsAccepted | analysis/independent_replication.py:788-866 | evidence from `create` is accepted, unchanged, when its document is read back |
| Evidence.AcceptedIsTruthful | analysis/independent_replication.py:793-866 | every accepted document is what reconciling its stored outputs under its stored contract gives, and its verdict is true of them |
| AtomicStore.StepKeeps | analysis/independent_replication.py:883-910 | each step of any call, and each crash, keeps the store's invariant; all but a loss of power keep what is published |
| AtomicStore.PublishedIsComplete | analysis/independent_replication.py:887-904 | at every moment of every run a published path holds the complete bytes of one of the calls made for it, already safe on disk |
| AtomicStore.PublishedIsPermanent | analysis/independent_replication.py:898-904 | while the power stays on a published path keeps its contents for good |
| AtomicStore.OutcomeIsTruthful | analysis/independent_replication.py:898-904 | a call that succeeded finds its own bytes at its path, a call that was refused finds another call's |
| AtomicStore.SameBytesNeverRefused | analysis/independent_replication.py:900-904 | when all calls for a path bring the same bytes nobody is refused |
| AtomicStore.ComparisonDecides | analysis/independent_replication.py:898-904 | a call that finds its path taken succeeds exactly when the path holds its own bytes, and is refused otherwise |
| AtomicStore.NameMayBeLost | analysis/independent_replication.py:895-899 | counterexample: only the file is synced, so a loss of power can still take a finished call's name away |
| AtomicStore.FinishedCallIsLost | analysis/independent_replication.py:883-910 | counterexample: for every path and bytes, a run from the empty store in which the call reports success and a loss of power then takes the path away |
| EvidenceStore.LoadReturnsPersisted | analysis/independent_replication.py:927-949 | what a successful call published is what loading its digest returns, from then on |
| EvidenceStore.CreatedIsPublished | analysis/independent_replication.py:927-935 | whatever a reconciliation creates is published, under the digest of its payload |
| EvidenceStore.LoadedIsTruthful | analysis/independent_replication.py:937-949 | whatever loading returns has the digest asked for, which is that of its payload, and is what some lawful reconciliation creates |
| EvidenceStore.PersistIsNeverRefused | analysis/independent_replication.py:927-935 | if no two payloads share a digest, persisting is never refused, however calls interleave |
| Vintages.Rescan | analysis/pead_replication.py:1489-1505 | the rescan returns the one row of the latest earlier day, nothing when that day has several |
| Vintages.LookUp | analysis/pead_reference_replication.py:490-503 | the date-indexed ledger returns the same choice |
| Vintages.ChosenIsDated | analysis/pead_reference_replication.py:498-503 | the chosen row was observed on the chosen day, strictly before the report |
| Vintages.LaterRowsAreInvisible | analysis/pead_replication.py:1489-1494 | a row that is undated, or dated on or after the report, changes nothing wherever it stands |
| Consensus.NoReasonMeansComplete | analysis/pead_replication.py:1546-1548 | with no reason left every field the event is made of is present: the assertions before the record hold |
| Consensus.NoProblemMeansComplete | analysis/pead_reference_replication.py:537-540 | the same for the second implementation |
| Consensus.ReasonsAgree | analysis/pead_reference_replication.py:513-517 | the exclusion reasons are equal if and only if the actual's currency is not a blank text met by a vintage with some currency text; in that case both exclude |
| Consensus.BlankAgainstDollar | analysis/pead_reference_replication.py:513-517 | counterexample: a blank currency against a dollar vintage, whatever the key and the rules |
| Consensus.ResultsAgree | analysis/pead_reference_replication.py:460-562 | on one event both admit with equal values or both exclude the same row |
| Matching.NormalizePair | analysis/pead_replication.py:1435-1576 | the grouped rescan returns the specified events and exclusions in key order |
| Matching.ReconstructPair | analysis/pead_reference_replication.py:413-568 | the date-indexed matcher returns the specified events and exclusions in key order |
| EventEvidence.EventsTell | analysis/pead_replication.py:1435-1576 | both matchers report exactly the events that stand on two rows: the only report of the key and the only estimate of its latest earlier day, with actual, consensus, table consensus, counts and adjustment read from them, error as actual less consensus and difference as their distance |
| EventEvidence.EventsInOrder | analysis/pead_reference_replication.py:413-568 | the events come in the order of their keys, each key once |
| ExclusionEvidence.ReasonTells | analysis/pead_replication.py:1455-1550 | either implementation gives a reason exactly when the rows show it |
| ExclusionEvidence.ExclusionTells | analysis/pead_reference_replication.py:440-545 | an exclusion quotes the first report of its key, that key, and every reason its rows show |
| Matching.MatchersAgree | analysis/pead_reference_replication.py:446-562 | for every pair of tables both implementations admit the same events with the same values |
| Matching.ReportsAgree | analysis/pead_reference_replication.py:446-535 | the full reports are equal if and only if no blank-currency actual meets a vintage with currency text |
| Matching.NoLookAhead | analysis/pead_replication.py:1487-1505 | adding a vintage dated on or after every report with its key changes neither report |
| CashLoops.ReconstructCashReturn | analysis/pead_economic_returns.py:229-492 | the loops return the specified result |
| CashLoops.ReferenceCashReturn | analysis/pead_reference_replication.py:1462-1682 | the reference's loops return the specified result |
| CashEvidence.ImpliedTells | analysis/pead_economic_returns.py:372-379 | the implied amount is the one x with (close + x) · adjusted before = close before · adjusted |
| CashEvidence.VerdictTells | analysis/pead_economic_returns.py:352-398 | an ex-date passes with that amount, its distance from the total and the allowance, or fails for want of a price on the day, before it, or for a distance beyond the allowance |
| CashEvidence.TotalDecides | analysis/pead_economic_returns.py:372-389 | where the prices explain x, a total passes exactly when it is no further from x than absolute plus relative times the larger of the two |
| CashEvidence.ExactTotalPasses | analysis/pead_economic_returns.py:372-389 | a total of exactly x passes with error zero |
| CashEvidence.PrimaryTells | analysis/pead_economic_returns.py:229-492 | what the first reconstruction answers is so: a resolved return books every held dividend once, ex-date by ex-date, ends in the exit close or the one settlement received in time, and takes the entry price to end plus cash; an unresolved one names a reason that holds; a refusal names a fault |
| CashEvidence.ReferenceTells | analysis/pead_reference_replication.py:1462-1682 | so is what the second answers |
| CashReturns.TwinsAgree | analysis/pead_reference_replication.py:1462-1682 | for dollar paths with a validated lifecycle, whenever both return they return the same result |
| CashRefusals.RaiseDifference | analysis/pead_reference_replication.py:1550-1552 | on a usable path they differ if and only if a dividend without a positive amount comes before any unreadable action and either there is an unreadable action or an ex-date earlier than every such dividend fails its price check; the reference then raises and the first implementation reports the path unresolved |
| CashRefusals.Difference | analysis/pead_reference_replication.py:1462-1682 | on every path with positive prices: the two implementations differ if and only if the arguments are misused (reversed dates, a negative tolerance, another currency), or the delisted flag is neither N nor Y, or that dividend is met, or a clean path needs a settlement and an unreadable last price date stops only the first |
| CashRefusals.PartingParts | analysis/pead_economic_returns.py:343-371 | counterexample: an unpriced ex-date before a dividend without an amount |
| CashPaths.LastSortedIsGreatest | analysis/pead_economic_returns.py:359-371 | the last of the sorted priced days is the greatest, so both ways of finding the prior day agree |
| CashLaws.ResolvedValue | analysis/pead_economic_returns.py:472-476 | a resolved return is the exit price or settlement cash plus every held dividend, each once, over the entry price |
| CashLaws.EveryExDateChecked | analysis/pead_economic_returns.py:343-390 | in a resolved return every ex-date's total passed its adjustment check, and each ex-date was checked once |
| CashLaws.EveryDividendOnce | analysis/pead_economic_returns.py:343-409 | going ex-date by ex-date takes every dividend exactly once |
| DailyDistributions.PriorSessionIsLatest | analysis/pead_daily_reference.py:609-621 | where the session before an ex-date is priced, it is the latest priced day if and only if no day between is priced |
| DailyDistributions.ChecksCoincide | analysis/pead_daily_reference.py:610-631 | when all and only sessions of the interval are priced, the two reconstructions find the same prior day, implied dividend, error and allowance |
| DailyDistributions.ExpectedDistributions | analysis/pead_daily_reference.py:595-687 | the event ledger returns the dividends by date exactly when every action is readable, every ex-date passes, and the frozen list matches in amounts, keys and diagnostics |
| DailyEvidence.DailyTells | analysis/pead_daily_reference.py:611-640 | an ex-date passes exactly when it and the session before have bars and the total is within its allowance of the amount they explain; the diagnosis shows these numbers |
| DailyEvidence.TotalDecides | analysis/pead_daily_reference.py:624-634 | a total of exactly that amount has error zero; one further away than the allowance is refused |
| DailyEvidence.ExpectedTells | analysis/pead_daily_reference.py:595-687 | the reconstruction is accepted exactly when every held action is an ignored one or a positive dividend, every ex-date passes, days, money amounts and keys are those frozen, and every frozen diagnosis is within 1e-12 of its ex-date's |
| DailyDistributions.ResolvedPassesDaily | analysis/pead_daily_reference.py:637-686 | the distributions of a resolved path pass that reconstruction, whatever order its action rows come in |
| Selection.BuildSelectionManifest | analysis/pead_execution_ledger.py:570-654 | the loops build the manifest of every formation at every horizon from its ranked cross-section, and accept exactly when the selections are those the source report froze at every horizon |
| SelectionEvidence.ManifestsTell | analysis/pead_execution_ledger.py:570-654 | one manifest for every formation and horizon, in order: it ranks the cross-section from 1 by signal and name, selects a fifth at either end from ten names on, and gives the status the selected paths call for |
| SelectionEvidence.LedgerTells | analysis/pead_execution_ledger.py:579-654 | the frozen selections are those of the formations of ten names or more, earliest first, a fifth a leg |
| Selection.TailsBracket | analysis/pead_execution_ledger.py:579-588 | above the floor the tails are disjoint; names outside the short tail rank above all of it, names outside the long tail below all of it |
| Selection.ManifestsIgnoreOrder | analysis/pead_execution_ledger.py:573-584 | the manifests do not depend on the order of the observations |
| Selection.ReturnsPlayNoPart | analysis/pead_execution_ledger.py:591-613 | the frozen legs do not depend on path statuses; a cohort is admitted if and only if it is above the floor and all its selected paths are resolved |
| LockedPortfolio.LockFactorSlice | analysis/pead_replication.py:1714-1764 | a name twice on one date is refused; otherwise the rows above the floor come back sorted by date, signal and name, each numbered within its date |
| LockedPortfolio.LockPortfolio | analysis/pead_replication.py:1767-1830 | every date's two ends are frozen and listed whether or not returns exist; a cohort is admitted exactly when every frozen name has a return |
| SelectionEvidence.SliceTells | analysis/pead_replication.py:1714-1764 | the slice holds exactly the observations of formations with enough names, by date, signal and name, each numbered by how many of its date come before it |
| SelectionEvidence.PortfolioTells | analysis/pead_replication.py:1767-1830 | every formation with enough names is frozen, earliest first, with the quantile's share of names, rounded down and at least one, at either end |
| SelectionEvidence.AdmittedTells | analysis/pead_replication.py:1800-1830 | the admitted dates are, in order, those whose frozen names all have a return |
| LockedPortfolio.GroupIsRanked | analysis/pead_replication.py:1752-1790 | the group a formation is cut from, sorted over the whole frame and regrouped, is its own cross-section ranked |
| LockedPortfolio.LockedLegsFit | analysis/pead_replication.py:1779-1794 | for every quantile up to a half and at least two names the legs do not overlap |
| LockedPortfolio.OneNameIsInBothLegs | analysis/pead_replication.py:1792-1794 | counterexample: a single name would be in both legs, which is why a floor is needed |
| SelectionTwins.SelectionsAgree | analysis/pead_execution_ledger.py:573-590 | ranking and cutting the same observations independently, the locked portfolio at one fifth above the ten-name floor and the execution ledger freeze the same selections, in the same order |
| SelectionTwins.ReportIsAccepted | analysis/pead_execution_ledger.py:649-653 | so the ledger's closing comparison accepts a report frozen from the same observations |
| SelectionTwins.LegsAgree | analysis/pead_daily_reference.py:284-300 | the daily reference gives every name the same leg |
| SelectionTwins.StatusesAgree | analysis/pead_daily_reference.py:301-302 | the daily reference accepts a cohort's status if and only if it is below the floor or all its selected paths are resolved |
| SelectionTwins.UnresolvedCohortParts | analysis/pead_daily_reference.py:301-302 | counterexample: ten names without a resolved path are excluded by the ledger and expected admitted by the reference |
| KnownBy.SelectConservativeConsensusVintage | analysis/pead_known_by_policy.py:126-171 | the loops return the specified answer |
| KnownByEvidence.ChoiceTells | analysis/pead_known_by_policy.py:126-171 | none eligible, or several at the latest date and instant, or the one row there, judged by its analysts; the digests are those of the latest rows, sorted |
| KnownBy.OnlyEligibleRowsMatter | analysis/pead_known_by_policy.py:143-170 | the answer depends on nothing but the collection of eligible rows and the Eastern day |
| KnownBy.CutoffHolds | analysis/pead_known_by_policy.py:141-152 | reordering rows, another hour of the same Eastern day, and rows dated or available on or after it change nothing |
| KnownBy.NoFallback | analysis/pead_known_by_policy.py:156-171 | a vintage is selected if and only if it is the one eligible row with the latest key; a shared latest key selects nothing |
| DailyInputs.ValidateInternalPayload | analysis/pead_daily_inputs.py:1201-1305 | the validator finds no error exactly when sessions, coverage and prices meet the snapshot's contract; an error it finds is so, and is the first in the order of the checks |
| SnapshotEvidence.AcceptedTells | analysis/pead_daily_inputs.py:1201-1305 | a snapshot is accepted exactly when its sessions ascend from start to end, each selected path has one row with the sessions from its entry to its exit, horizon plus one of them, rows are sorted, prices are positive, inside the envelope and sorted without repeats, and every listed session is priced |
| DailyInputs.SelectedPathIsWhole | analysis/pead_daily_inputs.py:1223-1305 | every selected path of an accepted snapshot runs over exactly horizon+1 consecutive sessions with a positive close at each |
| DailyInputs.PrimaryIsTotal | analysis/pead_daily_ledger.py:199-208 | on an accepted snapshot the primary ledger can miss neither a session, nor the horizon, nor a price |
| DailyInputs.ReferenceIsTotal | analysis/pead_daily_reference.py:714-736 | nor can the event ledger |
| DailyInputs.ReferencePathIsSound | analysis/pead_daily_reference.py:718-738 | none of the event ledger's own refusals of a path can fire on an accepted snapshot |
| Signals.CollectRecord | analysis/pead_replication.py:2189-2306 | the loops return the specified outcome: nothing for a non-member or without a visible signal, the first unusable entry price or market capitalisation, or the record of the last visible prepared event, the next session and the exits by position |
| SignalEvidence.PrepareTells | analysis/pead_replication.py:2063-2096 | an event can be scaled exactly when a session with a positive close ended before it and its day has a positive unadjusted price; the signal times the last such close is the error |
| SignalEvidence.SignalTells | analysis/pead_replication.py:2205-2217 | the signal of a formation is that of its newest known event: scalable, fresh, announced before the formation close, none such announced later, the last given among equal instants |
| SignalEvidence.RecordTells | analysis/pead_replication.py:2189-2325 | a record uses that event and the prices quoted on the next session; an exclusion names the first thing the entry lacks; silence means no membership or no known event |
| Signals.SessionCloseSchedule | analysis/pead_replication.py:882-928 | closes are given exactly when the sessions ascend inside the window and include every early close of it; each is, on the Eastern clock, 13:00 of its day if that closes early and 16:00 otherwise |
| Signals.ScheduleIsChronological | analysis/pead_replication.py:922-928 | a later session closes later, whatever days close early and however the offset from UTC moves |
| Signals.PriceIsBefore | analysis/pead_replication.py:2063-2096 | the scaling price is the last positive close of a session that closed strictly before the announcement |
| Signals.RecordsAreChronological | analysis/pead_replication.py:2189-2325 | on a market closed by that schedule, in every record price close, announcement, formation close and entry close come in that order, and each exit is exactly its horizon after the entry |
| Signals.LaterEventsDoNotInterfere | analysis/pead_replication.py:2209-2217 | events announced at or after the formation close cannot change an emitted record |
| Signals.SortsAgree | analysis/pead_reference_replication.py:1895-1900 | the stable sort by time and the sort by time and key give the same list, because events arrive in key order |
| Signals.SortedByTimeAndKey | analysis/pead_reference_replication.py:1895-1900 | and that list is in the order of the announcements, events of one instant in the order of their keys |

## Left out

- Provider and warehouse reads, HTTP receipts, HTML extraction, hashing and JSON text: documents are values and the digest is a parameter.
- The 50-digit decimal context and the overflow of `quantize`: intermediate arithmetic is exact.
- Binary floating point: amounts are reals, so overflow, signed zero and the rounding of float division are not modelled; a non-finite number appears only as its tag.
- Dates inside ledgers and cash paths are integers that order as the dates do; malformed date strings are modelled in the consensus tables and in settlements only.
- Grouping the constituent rows by cohort and sorting them by rank and name: the daily loops are modelled one cohort at a time, in the given order.
- Provenance columns (permaticker, source event key, rank, signal, formation date) that the daily loops copy through unchanged.
- The order of two distributions of one name on one day, sorted by canonical key in the primary loop.
- The reference ledger's cumulative fees per name, which the comparer never reads.
- A horizon of zero sessions, which makes entry and exit one session: both daily loops are modelled for at least two sessions.
- The constant fields and the atomic checkpoints of the cohort summary, and the formation states.
- `_validate_manifest`, `_validate_formation_rows` and `_validate_selected_paths`, which check fields, ranks, legs, sort order and exhaustiveness of frozen manifests against each other; `validate_action_rows`, which checks and sorts the fields of action rows; `_validate_key_manifest`, which checks the labels and counts of the daily keys; `_compare_records`, a keyed comparison of the same form as the component comparer.
- `_size_terciles` and the reference's terciles, including their different treatment of equal market caps.
- Forward returns of a formation record and the reasons one is missing; a bar on a day without a scheduled close, on which the original stops, is passed over.
- `select_conservative_market_session`, the same shape as the consensus cutoff.
- A marker mapping whose label is a list or mapping, on which the original raises a type error while looking it up in a set.
- A tolerance handed to the contract's constructor as a plain mapping, and extra fields of a field-set error message.
- Upper-casing and lower-casing beyond ASCII: a digest is lower-cased by the ASCII rule, every other case change is a parameter.
- Symbolic links, permissions and directory creation in the evidence store; a reader sees a file's contents in one step.
- The consensus tables' row counts, and which of two prepared exclusion reasons the reference merges into one.
- `foundation_research.py`, `candidate_readiness.py` and the other report modules: sums and flat checks over the parts modelled here.
- DailyChecks.DailyCheckFollowsRepeats: leaves open a band of half a quantum per name on either side of 1e-12, where the rounding of the contributions decides.
- CohortSizes.BuiltSummaryValid: covers the six P&L fields; the constant fields are literals on both sides.
- DailyInputs.ValidateInternalPayload: leaves out the snapshot's bindings to its sources, the formation rows, the selected-path fields and the actions.
- LedgerValidity.BuiltIsValid: bounds price moves and dividends by 6e7, the size up to which the quantity grid of 1e-24 keeps a product within 32 quanta.
- Vintages.LookUp: takes the history rows as a ghost parameter to say what the ledger indexes; the original has only the ledger.
- Selection.BuildSelectionManifest: derives the selections once, where the original appends the same ones for every horizon.
- Signals.CollectRecord: prepares the events again for every formation, where the original prepares and sorts them once.
- CashReturns.TwinsAgree: compares results only where both return; CashRefusals.Difference says when they differ on every path with positive prices.
- AtomicStore.PublishedIsPermanent: is stated between losses of power; what survives one is covered by AtomicStore.PublishedIsComplete.
