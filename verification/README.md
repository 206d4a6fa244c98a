# Verification models of the data-core pipeline

A Dafny 4.11 model of the parts of the data-collection pipeline whose behaviour spans several
functions or several runs, with machine-checked proofs. `dafny verify dfyconfig.toml` checks the
whole project. Paths below are relative to the repository root.

The modules, one file each (`Sorting` sits in `Lists.dfy`):

- **Adaptive intelligence.** `Outcomes` (outcome rows, evaluation context, lookback window),
  `OutcomeTracker` (how a signal and its candles become an outcome row, and which rows can be written),
  `LeastSquares`, `Calibration` and `BucketScores` (confidence buckets, their regression slope and their
  scores), `Performance` and `Regimes` (return accumulators per slice and regime, and the recommendation
  they earn), `StrategyFeedback` (the strategy engine), `RiskTuning` and `Masking` (aggregates, risk level,
  flags, and what the aggregates can hide), `Orchestrator` (the engines in sequence, any of which may fail,
  and the overall recommendation), `FallingBoost` (when a BOOST stands over falling prices), `Drift` and
  `DecisionQuality` (longitudinal windows, saturation, stability, health and decision scores),
  `AlphaTracker` (out-of-sample observations and their metrics).
- **Scheduler and control state.** `Tables` (runs, targets, errors), `TargetSelector`
  (least-recently-collected selection over many runs), `DefaultTargets` (seeding of default targets),
  `Breaker` (run life cycle, locks, stale-run sweep, circuit breaker), `CollectorWorker` (the item loop of
  a run), `CanonicalBackfill` (the batch loop over missing canonical ids), `Coverage` (readiness counters
  and source health).
- **Paging and ingestion.** `PriceFeed` (keyset paging and the latest-per-product mode),
  `OhlcvBackfill` (cursor download and conflict-ignoring insertion).

Objects the program updates in place are classes (`Calibration.BucketAcc`, `Performance.Acc`, the
`Store` and `Session` classes over tables); their methods are tied to functions of the old state, and
the properties are lemmas about those functions. Database rows are sequence elements, a row's id its
position unless the row carries one; times are integers (microseconds, or milliseconds for bars);
figures are reals before rounding. Where a query leaves the choice of rows or their order open, the model allows every choice,
except where "Left out" says otherwise.

## What the proofs found

Places where the program does less than its documentation or a natural reading suggests. The code is
modelled as it is, and each finding names the lemma that says when it happens.

- The risk tuner's expectancy is weighted by correct predictions, so it equals the mean price change only
  if as many rows are correct as are gaining, or every change is zero
  (`RiskTuning.ExpectancyIsMeanExactlyWhen`). It can be non-negative over a negative sum of price changes
  exactly when correct rows outnumber gaining ones and some row gains or all are correct
  (`Masking.MaskedExactlyWhen`); with price changes before rounding, that takes more falling than rising
  SELLs (`Masking.CorrectAgainstGaining`).
- The strategy engine counts a rising price as a win whatever was signalled: a slice of correct SELLs is
  never kept or boosted (`StrategyFeedback.CorrectSellsAreLosses`), one of wrong SELLs is kept
  (`StrategyFeedback.WrongSellsAreKept`).
- Both together: a table the outcome tracker can write can be recommended BOOST over a negative sum of
  price changes, exactly for the counts of `FallingBoost.HiddenBoostExactlyWhen`: more correct than gaining
  rows, at least 18 gaining ones, an incorrect one, 30 gaining and incorrect ones together, and 55% correct.
  In one such table half of the slices ask for DISABLE (`FallingBoost.BoostOnFallingPrices`); a BOOST
  depends on no count of disabled slices (`Orchestrator.OverallMeaning`).
- The sixteen-dimension health score cannot exceed 91/96, because two of its dimensions exclude each other:
  learning impact is highest where calibration effectiveness is lowest
  (`DecisionQuality.QualityRanges`, `DecisionQuality.AdaptiveScoreRange`). The precision it uses only says
  whether any slice is promoted (`DecisionQuality.QualityMeaning`).
- A confidence bucket reaches full weight only if its price changes are all equal
  (`BucketScores.FullWeightExactlyWhen`).
- The overall recommendation is not monotone in the risk level: a majority of disabled slices gives
  DISABLE at a moderate level but only THROTTLE at a high one
  (`Orchestrator.SeverityFollowsRiskExactlyWhen`).
- A slice without a single negative return has no profit factor and is therefore never boosted
  (`Performance.VerdictExactlyWhen`, `Performance.FlawlessSliceIsNotBoosted`).
- One qualifying row that closes at zero aborts the whole computation of observations
  (`AlphaTracker.AbortedExactlyWhen`).
- A run failed by the stale-run sweep can be turned into a success by its worker: a finished run's status
  is whatever its worker reported last (`Breaker.FinishedStatus`).
- A reopened circuit is opened again by the next check, with no run in between, exactly when the failure
  streak still reaches the threshold (`Breaker.ReopenedCircuitReopensExactlyWhen`). A repeated check can
  open what the first did not only if a success and a failure finished at the same time
  (`Breaker.CheckIsIdempotent`).
- An open circuit under a source name can leave the same-named source of another module running through
  its failures (`Breaker.FailingPairOffExactlyWhen`, `Breaker.OtherModuleStaysActive`).
- Collecting the same items twice saves those without an external id twice
  (`CollectorWorker.RerunChangesNothingExactlyWhen`).
- Seeding works through a session that does not flush before queries (`database/session.py:30`).
  With two collectors seeded for one URL the call need not converge and can flip a row at every call;
  with two seeds of one new identity it fails (`DefaultTargets.ConvergesExactlyWhen`,
  `DefaultTargets.SecondCallChangesNothingExactlyWhen`, `DefaultTargets.FailsExactlyWhen`). Seeding
  also re-activates targets under an open circuit
  (`Breaker.SeedingKeepsQuarantineExactlyWhen`).
- Targets that are selected but never collected keep their place at the front and can starve others
  (`TargetSelector.ServedExactlyWhen`).
- The canonical-id loop cannot end while a row has neither a source id nor a title
  (`CanonicalBackfill.ExitReachableExactlyWhen`), and if a batch or more of such rows exist it need never
  fill the others (`CanonicalBackfill.FilledByAllRunsExactlyWhen`).
- With `latest_only`, `limit` keeps the smallest product ids, not the most recent rows the
  endpoint's description speaks of (`PriceFeed.TruncationKeepsSmallestIds`).

## Model

| member | source | states |
|---|---|---|
| LeastSquares.SlopeIsOptimal | app/adaptive_intelligence/confidence_calibration.py:448-467 | the line through the means with the returned slope has the least squared error of all lines, and is the only one that has it, for any number of points |
| LeastSquares.SlopeDefined | app/adaptive_intelligence/confidence_calibration.py:454-467 | a slope is returned exactly when two points differ in x |
| LeastSquares.SlopeSign | app/adaptive_intelligence/confidence_calibration.py:457-467 | over ascending x, if y never falls the slope is >= 0, and > 0 exactly when y is not constant |
| Calibration.BucketAcc.constructor | app/adaptive_intelligence/confidence_calibration.py:56-62 | a new bucket accumulator holds the totals of no rows, and empty lists |
| Calibration.BucketAcc.Add | app/adaptive_intelligence/confidence_calibration.py:64-81 | adding a row updates confidence sum, win or loss count and the three lists, and nothing else; one return stays listed per row counted |
| Calibration.AddToBucket | app/adaptive_intelligence/confidence_calibration.py:224-240 | a row reaches exactly the accumulator whose range holds its confidence; the others are unchanged |
| Calibration.Accumulate | app/adaptive_intelligence/confidence_calibration.py:221-240 | after the loop each accumulator holds the totals, the price changes and the timestamps of exactly the rows in its range, the lists in row order |
| Calibration.BuildBuckets | app/adaptive_intelligence/confidence_calibration.py:242-373 | the loop over accumulators yields the populated buckets in order, their total and the calibrated threshold |
| BucketScores.ScoreBuckets | app/adaptive_intelligence/confidence_calibration.py:246-271 | the loop scores each populated bucket, in order, from exactly the rows in its range |
| BucketScores.FullWeightExactlyWhen | app/adaptive_intelligence/confidence_calibration.py:256-271 | a bucket weighs 1 exactly when it holds 30 rows or more, all correct, with one price change, and not older on average than the evaluation |
| BucketScores.StabilityMeaning | app/adaptive_intelligence/confidence_calibration.py:101-107 | stability lies in [0,1] and is 1 exactly when the bucket has returns and they are all equal |
| BucketScores.ScoresInRange | app/adaptive_intelligence/confidence_calibration.py:256-271 | every score lies in [0,1], the decay in [0.25,1], and the weight is 1 exactly when reliability and decay are |
| BucketScores.DecayFalls | app/adaptive_intelligence/confidence_calibration.py:264-271 | the decay never rises with age and reaches its floor exactly at 273.75 days |
| Calibration.Evaluate | app/adaptive_intelligence/confidence_calibration.py:206-383 | an evaluation is the calibration of the calibratable rows in the window of the derived context |
| Calibration.BucketAverages | app/adaptive_intelligence/confidence_calibration.py:83-95 | a populated bucket's mean confidence lies in its own range and its win rate in [0,1] |
| Calibration.BucketsAscend | app/adaptive_intelligence/confidence_calibration.py:35-41 | populated buckets come in ascending, disjoint ranges |
| Calibration.SlopeNeedsTwoBuckets | app/adaptive_intelligence/confidence_calibration.py:448-467 | for any rows the slope is defined exactly when two or more buckets are populated |
| Calibration.MonotoneCalibrationSlope | app/adaptive_intelligence/confidence_calibration.py:449-467 | if win rates never fall across the populated buckets the slope is >= 0, and > 0 unless they are all equal |
| Calibration.WellCalibratedExactlyWhen | app/adaptive_intelligence/confidence_calibration.py:375-383 | well calibrated is exactly two or more buckets, a positive slope and no bucket more than 10 points below its confidence |
| Calibration.SamplesConserved | app/adaptive_intelligence/confidence_calibration.py:224-240 | the total counts every row with a confidence in 0..100 once, and no other row |
| Calibration.ThresholdIsLowest | app/adaptive_intelligence/confidence_calibration.py:370-373 | the threshold is the lower bound of the lowest bucket that wins at the calibrated rate, absent exactly when none does |
| Calibration.CalibrationIgnoresRowOrder | app/adaptive_intelligence/confidence_calibration.py:206-240 | the result, derived context included, is the same for every permutation of the table |
| Calibration.CalibrationIgnoresOutsideRows | app/adaptive_intelligence/confidence_calibration.py:216-240 | under a given context, rows signalled outside the window do not change the result, wherever they are added |
| Outcomes.FilterRowsForContext | app/adaptive_intelligence/dto.py:304-319 | the loop keeps exactly the rows signalled in the closed lookback window, in order |
| Outcomes.NewestIsMaximum | app/adaptive_intelligence/dto.py:244-249 | the derived timestamp is the maximum of the row timestamps, absent exactly when no row has one |
| Outcomes.ContextIgnoresRowOrder | app/adaptive_intelligence/dto.py:269-301 | the derived context and dataset version are the same for every permutation of the rows, whatever the hash |
| Outcomes.OutsideRowsIgnored | app/adaptive_intelligence/dto.py:304-319 | rows signalled outside the window can be added or removed anywhere without changing the filtered rows |
| OutcomeTracker.RowsAreWritten | app/modules/trading/validation/outcome_tracker.py:189-276 | over sound candles every row of a BUY or SELL is correct as its price moved, falls by less than 100%, has an adverse excursion at or below its change, and ends within six candles of its signal |
| OutcomeTracker.WrittenExactlyWhen | app/modules/trading/validation/outcome_tracker.py:189-276 | these properties are exact: every row that has them is written over some table of sound candles |
| OutcomeTracker.SeparateRowsAreReal | app/modules/trading/validation/outcome_tracker.py:204-276 | such rows with distinct ids can all be written over one table of candles if no outcome lies in another row's horizon |
| Performance.Acc.constructor | app/adaptive_intelligence/regime_adapter.py:39-45 | a new accumulator holds the figures of no returns, and empty lists |
| Performance.Acc.Add | app/adaptive_intelligence/regime_adapter.py:47-56 | a positive return is a win added to gross profit, any other a loss added to gross loss; the return and its evidence id are listed |
| Performance.EveryReturnCounted | app/adaptive_intelligence/regime_adapter.py:47-60 | the sample size is the number of returns added |
| Performance.NetIsTotal | app/adaptive_intelligence/regime_adapter.py:47-56 | gross profit less gross loss is the sum of the returns |
| Performance.GrossLossMeaning | app/adaptive_intelligence/regime_adapter.py:47-56 | gross loss is zero exactly when no return is negative |
| Performance.GrossProfitIsGains | app/adaptive_intelligence/regime_adapter.py:47-56 | gross profit is the sum of the positive returns |
| Performance.ExpectancyIsMean | app/adaptive_intelligence/regime_adapter.py:67-74 | the win/loss formula for expectancy is the arithmetic mean of the returns |
| Performance.ProfitFactorMatchesExpectancy | app/adaptive_intelligence/regime_adapter.py:67-80 | a profit factor exists exactly when some return is negative, and then exceeds 1 exactly when expectancy is positive |
| Performance.VerdictExactlyWhen | app/adaptive_intelligence/dto.py:588-603 | when each recommendation is given, in counts and sums of the returns; BOOST exactly for 30 or more returns, at least 60% gaining, a positive total, some negative return and profits of at least 1.5 times the losses |
| Performance.FlawlessSliceIsNotBoosted | app/adaptive_intelligence/dto.py:596-603 | ten or more returns none of which is negative are recommended KEEP if half of them gain and THROTTLE otherwise, however many there are |
| Regimes.Record | app/adaptive_intelligence/regime_adapter.py:140-156 | recording under a key changes that key's figures only, creating its accumulator on first use |
| Regimes.Tally | app/adaptive_intelligence/regime_adapter.py:140-157 | after the loop every key that occurs has exactly the figures of its own rows, and no other key exists |
| Regimes.Evaluate | app/adaptive_intelligence/regime_adapter.py:115-225 | the report's adaptations, per-regime figures and counts are those of the windowed rows, and the dominant regime has the largest count |
| Regimes.MostObserved | app/adaptive_intelligence/regime_adapter.py:204-207 | the dominant regime is one whose count no other exceeds |
| Regimes.SampleSizeIsCount | app/adaptive_intelligence/regime_adapter.py:153-157 | a regime's sample size is the number of its rows, so the separate counter agrees with it |
| Regimes.RegimeIsMergeOfSlices | app/adaptive_intelligence/regime_adapter.py:140-157 | a regime's figures are the merge of those of its slices, in any order |
| RiskTuning.ExpectancyIsMeanExactlyWhen | app/adaptive_intelligence/risk_tuner.py:232-244 | the tuner's expectancy is the mean return exactly when as many rows are correct as are gaining, or all returns are zero |
| Masking.HonestExpectancy | app/adaptive_intelligence/risk_tuner.py:232-244 | with no more correct rows than gaining ones, a non-negative expectancy means a non-negative sum of price changes |
| Masking.MaskedExactlyWhen | app/adaptive_intelligence/risk_tuner.py:232-244 | for which counts of rows, correct and gaining ones some table the tracker can write has a non-negative expectancy over a negative sum of changes: correct > gaining, and some gain or all correct |
| Masking.CorrectAgainstGaining | app/modules/trading/validation/outcome_tracker.py:229-252 | on tracked rows, correct less gaining is falling SELLs less rising SELLs, for price changes before rounding |
| Masking.RecordIsReal | app/modules/trading/validation/outcome_tracker.py:204-276 | calls made seven hours apart, each of which the tracker can write, form a table it can write |
| RiskTuning.DrawdownIsMaximum | app/adaptive_intelligence/risk_tuner.py:247-252 | the drawdown is attained and not exceeded by any row, absent exactly when no row records one |
| RiskTuning.AggregatesIgnoreRowOrder | app/adaptive_intelligence/risk_tuner.py:229-254 | the aggregates are the same for every permutation of the rows |
| RiskTuning.AggregatesIgnoreOutsideRows | app/adaptive_intelligence/risk_tuner.py:221-254 | under a given context, rows signalled outside the window do not change the aggregates |
| RiskTuning.LevelMeaning | app/adaptive_intelligence/risk_tuner.py:257-332 | the level is set by the worst of win rate, expectancy and drawdown, moved up one step by an overconfidence warning |
| RiskTuning.RiskIsMonotone | app/adaptive_intelligence/risk_tuner.py:257-332 | worse figures or a warning never lower the level or the confidence floor, nor raise the position size |
| StrategyFeedback.CountEarned | app/adaptive_intelligence/strategy_feedback.py:313-318 | the loop over slices counts those that earn each recommendation |
| StrategyFeedback.Evaluate | app/adaptive_intelligence/strategy_feedback.py:287-311 | the engine's result: outcomes in the window of the derived context, slices, recommendations counted by slice, and that context |
| StrategyFeedback.TopPerformersExactlyWhen | app/adaptive_intelligence/strategy_feedback.py:557-561 | there is a top performer exactly when the returns of some slice of the window earn a boost |
| StrategyFeedback.TradesFigures | app/adaptive_intelligence/strategy_feedback.py:70-84 | a slice's number, total, gains and sum of gains are those of its rows |
| StrategyFeedback.CorrectSellsAreLosses | app/adaptive_intelligence/strategy_feedback.py:70-84 | the recommendation of a slice of correct SELLs: observed below 10, disabled from 20 on when prices fell by more than 0.1 on average, throttled otherwise |
| StrategyFeedback.WrongSellsAreKept | app/adaptive_intelligence/strategy_feedback.py:70-84 | a slice of ten or more SELLs that were all wrong is recommended KEEP |
| Orchestrator.Evaluate | app/adaptive_intelligence/orchestrator.py:283-339 | whichever engines fail, each part is its engine's result over the shared context or its fallback, and the overall recommendation is derived from strategy, calibration and risk |
| Orchestrator.BoostIsSafe | app/adaptive_intelligence/orchestrator.py:118-161 | for every input and every subset of failing engines, BOOST implies that strategy, calibration and risk did not fail, some slice of the window earns a boost by its own 30 or more returns, win rate >= 0.55, expectancy >= 0, every excursion below 4, two or more buckets, a positive slope and no overconfident bucket |
| Orchestrator.BoostedChanges | app/adaptive_intelligence/orchestrator.py:143-153 | over any rows, tracked or not, a BOOST with no more correct than gaining ones means a non-negative sum of price changes; FallingBoost.HiddenBoostExactlyWhen gives the exact counts for tracked ones |
| Orchestrator.FailuresAreContained | app/adaptive_intelligence/orchestrator.py:55-161 | a strategy failure gives OBSERVE_ONLY; a calibration or risk failure never gives BOOST |
| Orchestrator.LowRisk | app/adaptive_intelligence/risk_tuner.py:98-124 | a LOW level needs data, no warning and acceptable figures, and gives full size and a floor of at least 55 |
| Orchestrator.OverallMeaning | app/adaptive_intelligence/orchestrator.py:118-161 | which levels and slice counts give each recommendation, in both directions |
| Orchestrator.SeverityFollowsRiskExactlyWhen | app/adaptive_intelligence/orchestrator.py:127-153 | a higher level gives a recommendation at least as severe exactly unless HIGH relaxes the DISABLE of a disabled majority to THROTTLE |
| FallingBoost.HiddenBoostNeeds | app/adaptive_intelligence/orchestrator.py:118-161 | whichever engines fail, a BOOST over a negative sum of tracked BUYs and SELLs needs correct > gaining >= 18, an incorrect row, gaining and incorrect rows together at least 30, and 55% correct |
| FallingBoost.HiddenBoostExactlyWhen | app/adaptive_intelligence/orchestrator.py:118-161 | for every digest and all counts, some failure-free evaluation of a table the tracker can write is a BOOST over a negative sum with these counts exactly when they meet those bounds |
| FallingBoost.HidingTable | app/adaptive_intelligence/orchestrator.py:283-339 | such counts are hidden for every lookback of seven hours a row or more |
| FallingBoost.RecordBoosts | app/adaptive_intelligence/orchestrator.py:143-153 | every failure-free evaluation of a record with such sizes, over a window that holds it, is a BOOST on all of its rows |
| FallingBoost.BoostOnFallingPrices | app/adaptive_intelligence/orchestrator.py:143-153 | every failure-free evaluation of a certain table of 50 rows, which the tracker can write, is a BOOST, although its price changes sum to -30, one of its two slices asks for DISABLE and disabling is recommended |
| FallingBoost.RecordFeedback | app/adaptive_intelligence/strategy_feedback.py:287-318 | the strategy engine on such a record in one market: two slices, the BUYs boosted and the correct SELLs disabled |
| FallingBoost.RecordCalibrated | app/adaptive_intelligence/confidence_calibration.py:375-383 | a record of sure calls that were right and doubtful ones that were wrong counts as well calibrated |
| Drift.ComputeLongitudinalDrift | app/adaptive_intelligence/dto.py:322-357 | one metric per window of 7, 30, 90, 180 and 365 days, in that order |
| Drift.WindowsNested | app/adaptive_intelligence/dto.py:304-327 | a shorter window's rows are the longer window's rows, filtered |
| Drift.SampleSizesNeverFall | app/adaptive_intelligence/dto.py:322-357 | sample sizes never fall from a shorter to a longer window |
| Drift.PopulatedIsSuffix | app/adaptive_intelligence/dto.py:360-361 | the populated windows are a suffix of the list |
| Drift.SaturationCompares | app/adaptive_intelligence/dto.py:360-376 | saturation compares the shortest populated window with the 365-day one, and is zero when only that one or none is populated |
| Drift.MetricRanges | app/adaptive_intelligence/dto.py:328-346 | every score lies in [0,1], stability is 1 - volatility where there is data, improvement and degradation are never both positive |
| Drift.VolatilitySaturates | app/adaptive_intelligence/dto.py:338-341 | volatility is 1 exactly when the variance of the returns reaches 100 |
| Drift.LearningStabilityMeaning | app/adaptive_intelligence/dto.py:450-463 | learning stability lies in [0,1] and is 1 exactly when the populated windows agree on the win rate |
| Drift.HealthRanges | app/adaptive_intelligence/dto.py:466-508 | all eleven dimensions and their mean lie in [0,1], and the mean is 1 exactly when every dimension is |
| DecisionQuality.PromotedExactlyWhen | app/adaptive_intelligence/dto.py:588-603 | a slice is recommended BOOST or KEEP exactly when it has ten returns or more, at least half of them gaining, and no negative total |
| DecisionQuality.EarnedIsCoherent | app/adaptive_intelligence/dto.py:588-603 | for the figures of any returns the win rate lies in [0,1], and a promoted slice wins at least half |
| DecisionQuality.QualityMeaning | app/adaptive_intelligence/dto.py:861-886 | precision is 1 or 0 as some slice is promoted or none; recall is the promoted share of the winning slices; stability falls short of 1 by the share of winning slices not promoted |
| DecisionQuality.QualityRanges | app/adaptive_intelligence/dto.py:888-916 | every share lies in [0,1], learning impact in [-0.5,0.5], and calibration effectiveness is at most 1 less twice a non-negative learning impact |
| DecisionQuality.AdaptiveScoreRange | app/adaptive_intelligence/dto.py:956-1027 | for any slices the sixteen-dimension score lies in [0,91/96]; above 83/96 some slice is promoted, above 11/16 there is a slice |
| AlphaTracker.GroupBySeries | scripts/alpha_validation_tracker.py:217-220 | rows are grouped by symbol and timeframe, keeping their order and the order of first appearance |
| AlphaTracker.ComputeObservations | scripts/alpha_validation_tracker.py:216-290 | the nested scan over series sorted by time and the text of the id, or a failure when a zero entry price is divided by |
| AlphaTracker.ExactlyQualifyingRowsObserved | scripts/alpha_validation_tracker.py:222-250 | unless the scan fails, the observed rows are exactly the baseline signals calculated after the start, when ids identify rows |
| AlphaTracker.AbortedExactlyWhen | scripts/alpha_validation_tracker.py:274-289 | the scan fails only if some qualifying row closes at zero and a complete horizon behind it records a last close or any high or low, and with distinct ids exactly then |
| AlphaTracker.NoZeroCloseNoAbort | scripts/alpha_validation_tracker.py:274-294 | for any rows, while no qualifying row closes at zero the scan does not fail |
| AlphaTracker.ObservationsAreSound | scripts/alpha_validation_tracker.py:216-290 | for any rows each analytics id is observed at most once, every observation (alpha ones too) is a baseline signal after the start, excursions widen with the horizon, and on good bars MAE <= outcome <= MFE and every horizon shorter than an available one is available |
| AlphaTracker.OutcomeIsBracketed | scripts/alpha_validation_tracker.py:274-289 | on a good last bar and a positive entry the outcome lies between MAE and MFE |
| AlphaTracker.ExcurseExactlyWhen | scripts/alpha_validation_tracker.py:274-289 | a horizon is unavailable exactly when its bars are incomplete or record nothing, and fails exactly when they are not and the entry is zero |
| AlphaTracker.ExcursionsWiden | scripts/alpha_validation_tracker.py:274-289 | over a longer horizon MFE never falls and MAE never rises; a longer one is available while a shorter is not only if the shorter one's bars record nothing |
| AlphaTracker.RegimeCountsSum | scripts/alpha_validation_tracker.py:358-368 | the regimes' signal counts sum to the group's count |
| AlphaTracker.ProfitFactorMatchesExpectancy | scripts/alpha_validation_tracker.py:326-343 | the profit factor exists exactly when an outcome is negative, and then exceeds 1 exactly when the mean outcome is positive |
| TargetSelector.WaitingShrinksRivals | scheduler/jobs.py:580-608 | while a target waits, each run removes at least limit less obstacles of its rivals, and adds none |
| TargetSelector.NoStarvation | scheduler/jobs.py:580-608 | a target with fewer than limit obstacles is selected within any number of runs that outweighs its rivals |
| TargetSelector.EveryTargetServed | scheduler/jobs.py:580-608 | when every selected target is collected, each of N is selected within any ceil(N/limit) consecutive runs |
| TargetSelector.BlockedTargetsStarve | scheduler/jobs.py:634-674 | limit targets that are never collected and stand ahead of a target keep it from ever being selected |
| TargetSelector.ServedExactlyWhen | scheduler/jobs.py:580-674 | over enough runs, a target not tied with any of the never-collected ones is served exactly when fewer than limit of them stand ahead of it |
| DefaultTargets.Find | scheduler/jobs.py:517-526 | a row is found exactly when one has the seed's module, source, collector and URL |
| DefaultTargets.Session.FindExact | scheduler/jobs.py:517-526 | the query's result under the unique constraint |
| DefaultTargets.Session.EnsureSeed | scheduler/jobs.py:516-552 | one seed's effect on the session: an insert or a held flag waits, other collectors on the URL are switched off at once |
| DefaultTargets.Session.Commit | scheduler/jobs.py:554 | the waiting flags and rows are written together, or nothing is if the unique constraint fails |
| DefaultTargets.Session.EnsureDefaultCollectionTargets | scheduler/jobs.py:499-562 | the whole call, with the number of rows created, or no change at all when the commit fails |
| DefaultTargets.VisitedRows | scheduler/jobs.py:540-551 | while seeds are visited, exactly the rows with another collector on a seeded URL are switched off |
| DefaultTargets.LoadedRow | scheduler/jobs.py:517-538 | the flag a seed's row is compared with is the one left by the earlier seeds |
| DefaultTargets.ExistingRowsSettle | scheduler/jobs.py:515-554 | each existing row keeps its identity and gets its final flag; rows off every seeded URL are untouched |
| DefaultTargets.NewRowsAreSeeds | scheduler/jobs.py:528-530 | the rows created are exactly the unlisted seeds, in order, with their own flags |
| DefaultTargets.FailsExactlyWhen | scheduler/jobs.py:528-554 | the call fails exactly when two seeds share an identity the table does not have |
| DefaultTargets.ConvergesExactlyWhen | scheduler/jobs.py:499-554 | with distinct keys the call succeeds from any table, and each seed's flag and its URL's other collectors end as seeded exactly when no URL is contested by an active seed |
| DefaultTargets.FirstSeedFlips | scheduler/jobs.py:531-551 | the row of an active first seed on a contested URL is turned the other way by every call |
| DefaultTargets.SecondCallChangesNothingExactlyWhen | scheduler/jobs.py:499-562 | a second call creates nothing, and changes nothing exactly when no seed flips; uncontested seeds never flip |
| DefaultTargets.ContestedPairNeverSettles | scheduler/jobs.py:531-551 | two collectors seeded for one URL, the first active: no convergence, and a further change at the next call |
| DefaultTargets.ActiveAfterSeeding | scheduler/jobs.py:515-554 | a row is active afterwards only if it is an active seed's, or was active and no seed names another collector for its URL |
| DefaultTargets.ActiveSeedActivates | scheduler/jobs.py:531-554 | an active seed's row is active afterwards unless it was active before |
| CanonicalBackfill.Store.FillBatch | scheduler/jobs.py:1146-1156 | a pass over a batch fills exactly the rows that have an origin and counts each origin |
| CanonicalBackfill.Store.Backfill | scheduler/jobs.py:1133-1163 | where every row has an origin the loop ends, no id is missing, rows with an id are untouched, and the two counters sum to the initial number of missing ids |
| CanonicalBackfill.PickBatch | scheduler/jobs.py:1138-1143 | a batch holds rows without an id, as many as the limit allows |
| CanonicalBackfill.RoundsRemaining | scheduler/jobs.py:1137-1157 | after k batches exactly the initial number less k batch sizes is missing, or none |
| CanonicalBackfill.UnresolvableStays | scheduler/jobs.py:1146-1156 | a row with neither origin is missing after every run of batches |
| CanonicalBackfill.ExitReachableExactlyWhen | scheduler/jobs.py:1137-1145 | some run of batches reaches the exit exactly when every row without an id has a source id or a title |
| CanonicalBackfill.UnresolvableBatchIsIdle | scheduler/jobs.py:1146-1157 | a batch of rows with neither origin leaves the table as it is |
| CanonicalBackfill.FilledByAllRunsExactlyWhen | scheduler/jobs.py:1137-1157 | all runs of k batches, k at least the number of rows that can be filled, fill every such row exactly when fewer than a batch have neither origin, or there is nothing to fill |
| Breaker.Store.CheckSourceCircuit | scheduler/circuit_breaker.py:28-126 | a check on whatever order the query returns switches the pair's targets off and records an open error, or changes nothing, and reports which |
| Breaker.Store.ReopenSourceCircuit | scheduler/circuit_breaker.py:129-177 | a reopen switches the pair's targets on, resolves the source's open errors, records itself and returns the number of targets changed |
| Breaker.Store.SwitchTargets | scheduler/circuit_breaker.py:64-76 | all targets of the pair get the flag, the rest keep theirs, and the count is of those that changed |
| Breaker.Store.OpenCircuit | app/pipeline_api.py:797-825 | a manual open switches the pair's targets off, always records an open error and returns the number of targets changed |
| Breaker.Store.ResolveError | app/pipeline_api.py:1377-1390 | resolving stamps the error with that id, an unknown id changes nothing |
| Breaker.Store.StartRun | workers/collector_worker.py:31-47 | starting appends a running run |
| Breaker.Store.FinishRun | workers/collector_worker.py:97-134 | finishing sets the run's status and time whatever was done to it before, with an error row on failure |
| CollectorWorker.Store.RunCollector | workers/collector_worker.py:51-134 | the item loop's effect on records, raw rows and its three counters, or no change at all when the collector or an item raises |
| CollectorWorker.CountersAddUp | workers/collector_worker.py:58-105 | raw rows saved and duplicate add up to the items, saved records and raw rows are those added, nothing is removed and both unique constraints hold |
| CollectorWorker.RerunChangesNothingExactlyWhen | workers/collector_worker.py:58-95 | collecting the same items again saves exactly those without an external id, so it changes nothing exactly when every item has one |
| Breaker.Store.MarkStaleRuns | scheduler/jobs.py:905-925 | the sweep fails exactly the stale runs, adds their errors and collects their named sources |
| Breaker.Store.CleanupStaleRuns | scheduler/jobs.py:899-933 | after the sweep each collected source is checked once, in some order |
| Breaker.CheckOpensExactlyWhen | scheduler/circuit_breaker.py:36-62 | a check opens exactly when the trailing failure streak of the whole history, in the order the query returns it, reaches the threshold and no error is open under the source name |
| Breaker.StreakMeaning | scheduler/circuit_breaker.py:37-53 | in every order the query may return, the streak counts the failures finished after every success, between the strict and the non-strict reading of ties |
| Breaker.UntiedStreak | scheduler/circuit_breaker.py:37-53 | if no success and failure finished at the same time, every such order has the same streak |
| Breaker.CheckIsIdempotent | scheduler/circuit_breaker.py:55-62 | a second check changes nothing exactly unless its query orders ties into a streak the first one did not have; never without ties |
| Breaker.ReopenedCircuitReopensExactlyWhen | scheduler/circuit_breaker.py:129-172 | after a reopen the next check opens again exactly when the failure streak still reaches the threshold |
| Breaker.OpenThenReopen | scheduler/circuit_breaker.py:129-172 | opening then reopening leaves all of the pair's targets active, all others as they were, and no open error |
| Breaker.StepKeepsQuarantine | scheduler/circuit_breaker.py:64-102 | every step keeps all targets of a pair inactive under an unresolved open error for it |
| Breaker.StepKeepsOneOpen | scheduler/circuit_breaker.py:55-62 | every step but a manual open keeps at most one unresolved open error per source name |
| Breaker.BreakerInvariants | scheduler/circuit_breaker.py:28-177 | both hold over every run of start, finish, sweep, check, reopen, manual-open and resolve steps, whatever the checks' queries return |
| Breaker.CleanupIsExecution | scheduler/jobs.py:899-933 | the stale-run job is a run of these steps, so it keeps both invariants |
| Breaker.ExecutionAdvances | scheduler/jobs.py:905-925 | over every run of steps finished runs never run again, no row disappears and resolved errors stay resolved |
| Breaker.FinishedStatus | workers/collector_worker.py:97-134 | over every run of steps a finished run has the status its worker reported last, or its old one if there is no report; a failed run stays failed exactly unless that report is a success |
| Breaker.ReapedRunCanSucceed | workers/collector_worker.py:97-111 | a run failed by the sweep can be a success afterwards, its timeout error still on record |
| Breaker.FailingPairOffExactlyWhen | scheduler/circuit_breaker.py:55-76 | after a check of a failing pair its targets are all off exactly when nothing was open under the source name, or something was open for that pair, or they were off before |
| Breaker.OtherModuleStaysActive | scheduler/circuit_breaker.py:55-62 | for any two modules and threshold, from two active targets and no runs: both sources fail, the first is switched off by its check, and the check of the second does nothing |
| Breaker.SeedingKeepsQuarantineExactlyWhen | scheduler/jobs.py:515-554 | seeding keeps the quarantine exactly when no active seed lies on a pair with an open error |
| Breaker.LockedExactlyWhenRunning | scheduler/jobs.py:883-896 | a started running run holds a lock or is stale, never both; after a sweep a target is locked exactly when a run of its own is running, and no lock changed |
| Breaker.SweepEffect | scheduler/jobs.py:899-925 | each stale run gets exactly one timeout error and the sweep's time; other runs, all targets and earlier errors are unchanged |
| Coverage.CoveragePayload | app/pipeline_api.py:427-478 | the one-pass counters per source, and a summary that counts active, ready, candidate and blocked targets |
| Coverage.CountersMeaning | app/pipeline_api.py:447-465 | what each counter counts; active = ready + blocked and all = active + candidates |
| Coverage.HealthMeaning | app/pipeline_api.py:347-351 | a source is ok exactly when it has an active target and all its active targets are ready, on standby exactly when it has none active |
| Coverage.SourcesSumToSummary | app/pipeline_api.py:427-478 | every counter summed over the sources gives the counter over all targets |
| PriceFeed.PageIsPrefixOfRemaining | api/poupi_baby_routes.py:125-152 | a page is the first rows of the history that come after the cursor |
| PriceFeed.RemainingShrinks | api/poupi_baby_routes.py:138-158 | a full page's cursor leaves exactly the rows behind the page; a short page is the end |
| PriceFeed.MovingWalk | api/poupi_baby_routes.py:72-158 | while the window start, taken from the clock at each request, never moves back, following the cursor yields the newest of the remaining rows in order without repeats, with every one at or after the last start, in rows/limit + 1 requests, whatever is inserted above the cursor meanwhile |
| PriceFeed.WalkReturnsRemaining | api/poupi_baby_routes.py:125-158 | if the window start does not move between requests, the walk yields every remaining row once, in order, in rows/limit + 1 requests |
| PriceFeed.FullWalkIsHistory | api/poupi_baby_routes.py:125-158 | from no cursor, or one that does not decode, the walk is the whole filtered history |
| PriceFeed.LatestIsFirstOfHistory | api/poupi_baby_routes.py:74-95 | without truncation latest_only returns exactly the first history row of each product, one per product |
| PriceFeed.TruncationKeepsSmallestIds | api/poupi_baby_routes.py:83-95 | a product's row survives the limit exactly when fewer than limit products have a smaller id |
| PriceFeed.TruncationCanDropNewest | api/poupi_baby_routes.py:62-71 | a limit of one can return the older of two products |
| OhlcvBackfill.FetchOhlcvPaginated | scripts/backfill_ohlcv.py:41-53 | the cursor loop ends and returns every bar at or after the start, once each, in order |
| OhlcvBackfill.ResumeAfterPage | scripts/backfill_ohlcv.py:51 | resuming one past the last bar leaves exactly the bars behind the page |
| OhlcvBackfill.Store.InsertBars | scripts/backfill_ohlcv.py:56-151 | the effect of the insertion loop on both tables, and its two counters |
| OhlcvBackfill.InsertionKeepsConstraints | scripts/backfill_ohlcv.py:80-151 | any list keeps both unique constraints and every candle's raw row, only appends, counts what it appends, refers each new candle to the raw row with its own bar's checksum, and leaves every bar present |
| OhlcvBackfill.ReinsertionIsIdle | scripts/backfill_ohlcv.py:95-148 | inserting the same list again changes nothing and returns (0, 0) |
| OhlcvBackfill.FirstCandleWins | scripts/backfill_ohlcv.py:121-148 | a revised bar of a stored timestamp leaves the candles as they are |
| OhlcvBackfill.BackfillIsComplete | scripts/backfill_ohlcv.py:41-151 | into an empty store a backfill puts exactly the source's bars from the start on, one candle each |

## Left out

- CanonicalBackfill.Store.Backfill: requires every row without an id to have a source id or a title, because the loop does not end otherwise; what happens then is stated by CanonicalBackfill.ExitReachableExactlyWhen and CanonicalBackfill.UnresolvableBatchIsIdle.
- CanonicalBackfill.PickBatch: picks one admissible batch; the lemmas on rounds cover every admissible choice.
- PriceFeed.MovingWalk: the number of requests is bounded by a parameter that must be at least the number of remaining rows, only so that the walk is a total function.
- Breaker.Store.FinishRun: the counters a run reports are those of CollectorWorker.Store.RunCollector and not columns of this table; the type of a collector's error is taken to differ from the circuit breaker's own types.
- Calibration.BuildBuckets: the scores of the buckets are computed by BucketScores.ScoreBuckets in a pass of its own over the same accumulators.
- OutcomeTracker.RowsAreWritten: the tracker rounds the stored price change and excursions to four places after deciding correctness, so a BUY that rose by less than 0.00005% is stored as correct with change 0; the model keeps the values before rounding. Candles are taken to be complete, with positive ordered prices.
- DecisionQuality.AdaptiveScoreRange: the eleven dimensions it extends are any scores in range.
- StrategyFeedback.Evaluate: only what the tuner and the orchestrator read; drawdowns, excursions, validation lags and the learning profile of a slice are not kept.
- Regimes.Evaluate: among equally frequent regimes the program reports the first seen, the model any.
- Orchestrator.Evaluate: the policy hints and the merged learning profile are not modelled; an engine that fails raises before it returns.
- Drift.HealthRanges: scores are taken before rounding, and the square root is any function with the defining property.
- AlphaTracker.ComputeObservations: mean excursions and reports are not modelled.
- TargetSelector.EveryTargetServed: the set of active targets is fixed over the runs considered, and each has a last collection time of its own, although targets of two modules with the same source, collector and URL share theirs.
- The dispatch of selected targets to their collectors, and the scrapers themselves.
- Creating, updating and disabling single targets through the API, which are not steps of the breaker's runs.
- Rounding of reported figures and floating-point error.
- JSON, hashes, base64 and date formatting: parameters or abstract values; of cursors only that encoding can be undone.
- Database sessions other than the seeding one: each modelled operation is one transaction on tables nobody else writes meanwhile.
- Metrics, logging, webhooks, caches, authentication and rate limits.
- The data retention job, retries and the auditing of configuration.
