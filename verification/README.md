# A model of WaterfallHunter's research pipeline, mission control and recovery protocols

This project restates the hardest parts of the repository in Dafny and proves what they are for. It needs nothing but
Dafny 4.11: `dafny verify dfyconfig.toml` checks every file.

The repository decides on short trades from five-minute candles. Research code replays history, settles every signal by
first touch and picks a configuration by two selectors that must agree; its design rests on claims that no decision looks
ahead, that the holdout never selects, and that replaying a candidate pool is as good as running the scan again. Around
it stand protocols that must survive crashes and lost replies: numbered mission checkpoints with a step journal and a
gated resume, a mirror of the mission on GitHub, bounded automatic recovery of the stack, server-sent dashboard events, a
paper-trade ledger, and the publication of encrypted backups.

The files follow those parts.

- `Sequences` filtering, stable sorting, bisection; `Wrappers` optional values; `Trades` the reported trade.
- `Metrics`, `MetricsProperties` performance packets; `Splits` purged splits and walk-forward windows; `Cooldown` the
  replay; `Selection`, `WalkForward`, `CalibrateWaterfall`, `CalibrateScoreV2` the two calibrations; `Preference` what they
  select.
- `Candles`, `CandleProperties` resampling; `Outcomes` settlement; `Scan`, `Evaluate` the historical scan; `Emission` what
  it emits; `NoLookAhead`, `PoolReplay`, `PurgedRuns` its relational theorems; `Funding`, `FundingProperties`,
  `FundingTerms`, `Derivatives` the histories it reads.
- `TaskGraph`, `TaskGraphErrors`, `Mission`, `MissionTerms`, `Checkpoints`, `ResumeGuard`, `ResumeTerms`, `MissionRuns`,
  `GithubMirror`, `MirrorRuns` mission control.
- `Recovery`, `RecoveryTerms`, `RecoveryLimits`, `RecoveryOverlap`, `DashboardStream`, `PaperTrades`, `ReleasePublisher`,
  `PublicationRuns`, `ForeignReleases` the remaining protocols.

Code that loops or changes state is a method, in a class where the source keeps an object, proved equal to a function of
its inputs or of the old state; the theorems are lemmas about those functions, over every input and every run. Prices
and returns are `real`, timestamps `int`. A crash is "stop after any atomic replacement"; a request may fail before it
takes effect or after. SHA-256 is a datatype constructor, hence injective.

## What turned out not to hold

Each of these is a fact of the code. When it happens is proved as an if-and-only-if, except where a line says otherwise.

- The cooldown starts at zero per symbol: a trade is kept only from the epoch on (`Cooldown.KeptExactly`; a pool that loses
  its trade: `Cooldown.NothingBeforeTheEpoch`).
- Replaying the pool equals the direct run exactly under the Score V2 filter, or when there is no candidate
  (`PoolReplay.RefinementNeedsScores`). The command line refuses to emit a pool under any other filter
  (scripts/historical_backtest.py:1274-1279), so this is a limit of the function, not of the tool.
- Checkpoint ids are recognised with six digits: a mission loads again after sealing exactly while the highest number is
  below 999999 (`MissionRuns.SealingRestoresLoading`), and the millionth sealing blocks it for good
  (`MissionRuns.MillionthSealingBlocks`); sealings after it overwrite its file (`MissionRuns.OverwritesExactly`).
- Not every mission that seals can be resumed. Exactly those with no open step can whose state was sealed clean, with five
  text identities and with preconditions that hold as sealed (`ResumeGuard.ResumableExactly`,
  `MissionRuns.FreshSealResumableExactly`); null preconditions, a dirty worktree and a branch that is a number all pass
  sealing and fail here (`MissionRuns.SealedYetNotResumable`).
- Sealing a valid mission does not always succeed: if a list of the resume note is null it raises, with checkpoint and
  pointer written (`Checkpoints.MissionDirectory.CreateCheckpoint`, `MissionRuns.FailedNoteStillSeals`,
  `MissionRuns.NullTasksAreValid`).
- Ten thousand comments on the mission issue end all synchronisation (`GithubMirror.TooManyComments`); below that, and with
  the issues being the mission's, it succeeds when every request works (`GithubMirror.SyncsExactly`).
- The recovery limits depend on saving. Among checks that take turns, recoveries stay within them in every continuation
  exactly if each is saved (`RecoveryLimits.BoundedExactly`; lost within four checks: `RecoveryLimits.UnsavedRecoveryIsForgotten`),
  and so do the commands issued exactly if each also succeeds (`RecoveryLimits.CommandsBoundedExactly`,
  `RecoveryLimits.FailedCommandsAreNotLimited`). Three failures in a row precede every recovery exactly if each restart of
  the count is saved or had nothing to forget (`RecoveryLimits.ThreeFailuresExactly`, `RecoveryLimits.HealthyCheckIsForgotten`).
- Overlapping checks, lost files and failed saves keep the limits exactly when, of any two checks that could have counted
  three failures, the later has loaded a state the earlier had a part in (`RecoveryOverlap.OverlapExactly`); after any
  recovery, an overlapping check a second later breaks them (`RecoveryLimits.OverlapBreaks`).
- Advised leverage never reaches the paper-trade ledger: decisions carry it as a `float`, the ledger takes an `int`, and
  every trade opens at the minimum of four (`PaperTrades.ProjectedAdviceIsIgnored`).
- Paper trades balance exactly when no settled row is written and reported as failed; such rows are recorded again
  (`PaperTrades.UnreportedRowsAreRepeated`, with a run: `PaperTrades.UnreportedWriteUnbalances`). A restart forgets the
  active ones, and nothing else is ever missing (`PaperTrades.TradesAreConserved`).
- Upload and publish name a release by its tag. A publication leaves foreign releases alone under every network exactly
  when, beforehand, each release of its tag is an own draft or is published with all the assets already
  (`ForeignReleases.ForeignUntouchedExactly`); somebody else's draft of the tag may be published
  (`ForeignReleases.StrangerIsPublished`).

## Model

| member | source | states |
|---|---|---|
| CalibrateWaterfall.HoldoutNeverSelects | scripts/calibrate_waterfall.py:141-171 | Two reports with the same window, cooldown and horizon whose trades agree before development end less horizon get the same inner selection, walk-forward packets, selected name and refusal; only the holdout score may differ. |
| CalibrateScoreV2.HoldoutNeverSelects | scripts/calibrate_score_v2.py:239-288 | The same for Score V2, for every horizon override, fold count and configuration list. |
| CalibrateWaterfall.SelectionAgrees | scripts/calibrate_waterfall.py:61-138 | The claim for arbitrary pools and any scoring function, through both selectors. |
| CalibrateScoreV2.SelectionAgrees | scripts/calibrate_score_v2.py:68-122 | The claim for arbitrary Score V2 pools and any scoring function, including the missing-configuration failure. |
| CalibrateWaterfall.ConfigurationsAgree | scripts/calibrate_waterfall.py:37-54 | Filtering and cooldown replay per configuration look at nothing from the cut-off on. |
| CalibrateScoreV2.ThresholdsAgree | scripts/calibrate_score_v2.py:143-167 | Filtering and cooldown replay per threshold look at nothing from the cut-off on. |
| CalibrateWaterfall.SelectedIsSupported | scripts/calibrate_waterfall.py:61-167 | A selected configuration has an acceptable validation sample, ranks first among all acceptable ones, and every walk-forward fold of it is large enough with at least two positive. |
| Preference.CalibrationSelectsTheBest | scripts/calibrate_waterfall.py:61-171 | Each selector takes the configuration that comes first among those with an acceptable validation, or with a sturdy walk-forward, and none if there are none; the calibration selects a name exactly when both take it, and publishes every figure. |
| Preference.ThresholdCalibrationSelectsTheBest | scripts/calibrate_score_v2.py:68-140 | The same for Score V2, with the threshold, for any number of folds. |
| Preference.KeysPreferTheBetter | scripts/backtest_metrics.py:129-147 | One configuration strictly precedes another if and only if, at the first difference, it has more positive folds, a greater share of them, a smaller drawdown, a greater profit factor (none counting as zero), a greater expectancy, a larger sample, or a smaller complexity. |
| Preference.ValidationSelectsTheBest | scripts/calibrate_waterfall.py:61-85 | Validation is the performance on the signals between half and five sixths of the window less the horizon; no acceptable configuration is better than the selected one, and every other is rejected for the stated reason. |
| Preference.ThresholdSelectsTheBest | scripts/calibrate_score_v2.py:68-110 | The same for Score V2, where a configuration must also have approved weights and a threshold of 0 to 75. |
| Preference.WalkSelectsTheBest | scripts/calibrate_waterfall.py:88-138 | No configuration with enough trades in every fold, two thirds of the folds profitable and a defined profit factor is better than the selected one; the published figures are those of its folds. |
| Preference.CalibrationParts | scripts/calibrate_waterfall.py:141-171 | The two selections over three folds from half of the window on, their agreement, and the holdout scored for the agreed name alone. |
| Preference.ReportIsCalibrated | scripts/calibrate_waterfall.py:141-171 | A calibrated report is a complete research pool; the development period is its first five sixths, the horizon its holding hours. |
| Preference.ThresholdReportIsCalibrated | scripts/calibrate_score_v2.py:239-288 | The same for Score V2, where the horizon may be overridden. |
| Preference.ThresholdHoldout | scripts/calibrate_score_v2.py:264-300 | The published Score V2 holdout packet is that of the selected configuration on the trades of the last sixth, in order of time. |
| Preference.RefusedReports | scripts/calibrate_waterfall.py:143-155 | A report without a window, pool, guardrail, horizon or trades is refused for the first of these, by its message. |
| Preference.ThresholdRefusedReports | scripts/calibrate_score_v2.py:242-252 | The same for Score V2: window, pool, horizon. |
| Preference.UnpooledFails | scripts/calibrate_score_v2.py:288-291 | Once the walk-forward is through, a Score V2 calibration fails exactly when some configuration has no pool. |
| Preference.PoolMeans | scripts/calibrate_waterfall.py:27-54 | The pool of a configuration is the replay of the trades whose evidence sets every required flag. |
| Preference.ThresholdPoolMeans | scripts/calibrate_score_v2.py:143-167 | The pool of a threshold is the replay of the trades scored at it or above. |
| CalibrateWaterfall.TradesByConfiguration | scripts/calibrate_waterfall.py:37-54 | The loop over configurations computes the replayed trades of each. |
| CalibrateWaterfall.SelectDevelopmentValidation | scripts/calibrate_waterfall.py:61-85 | The ranking loop computes the specified inner selection, its refusals, and the window error. |
| CalibrateWaterfall.Calibrate | scripts/calibrate_waterfall.py:141-171 | The whole calibration equals its specification, error order included. |
| CalibrateWaterfall.RankingMeaning | scripts/calibrate_waterfall.py:64-81 | The ranked entries are exactly those of the acceptable configurations. |
| CalibrateWaterfall.EligibleMeaning | scripts/calibrate_waterfall.py:95-133 | The eligible walk-forward entries are exactly those of the configurations whose assessment is valid. |
| CalibrateScoreV2.SelectedIsSupported | scripts/calibrate_score_v2.py:68-140 | A selected configuration was acceptable in validation with its threshold, ranks first among all acceptable ones, and for any number of folds every fold of it is large enough and at least two thirds are positive. |
| CalibrateScoreV2.RankingMeaning | scripts/calibrate_score_v2.py:75-110 | The ranked entries are exactly those of the acceptable configurations, a configuration without trades being scored on none. |
| CalibrateScoreV2.TradesByThreshold | scripts/calibrate_score_v2.py:143-167 | The loop over configurations computes the replayed trades above each usable threshold. |
| CalibrateScoreV2.SelectWeights | scripts/calibrate_score_v2.py:68-110 | The ranking loop computes the specified selection and every refusal reason. |
| CalibrateScoreV2.Calibrate | scripts/calibrate_score_v2.py:239-288 | The whole calibration equals its specification, error order included. |
| Selection.BestIsLeast | scripts/calibrate_waterfall.py:82-85 | `sorted(ranked)[0]`: the chosen entry is a member and no member precedes it in the key and name order. |
| Selection.ValidationAgrees | scripts/calibrate_waterfall.py:65-68 | Validation packets of every configuration ignore everything from the cut-off on. |
| WalkForward.WalkForwardAgrees | scripts/calibrate_waterfall.py:88-138 | The walk-forward over a development period reads no trade from its end less the horizon on. |
| WalkForward.DevelopmentWalkForward | scripts/calibrate_waterfall.py:88-138 | The nested loops compute the specified assessments and selected name. |
| WalkForward.AssessFolds | scripts/calibrate_score_v2.py:185-224 | The fold loop computes the packets, counts and validity of one configuration. |
| WalkForward.ValidUsesEveryFold | scripts/calibrate_score_v2.py:199-210 | When every fold is large enough, the trades scored are exactly those of the test windows. |
| Metrics.PerformanceMetrics | scripts/backtest_metrics.py:46-126 | The one-pass computation equals the packet specified by its parts; it fails exactly for a risk fraction outside (0, 1]. |
| Metrics.Accumulate | scripts/backtest_metrics.py:92-107 | The scoring loop computes equity, peaks, both drawdowns, gains and losses as defined over the whole list. |
| Metrics.Validate | scripts/backtest_metrics.py:51-78 | The validation loop collects exactly the reasons, cost bases and usable rows. |
| MetricsProperties.DrawdownIsQuadratic | scripts/backtest_metrics.py:99-107 | The one-pass R drawdown is the maximum over i <= j of P_i - P_j with P_0 = 0: it bounds every fall and is reached by one. |
| MetricsProperties.DrawdownFractionIsQuadratic | scripts/backtest_metrics.py:97-104 | The same for the fractional drawdown of compounded equity. |
| MetricsProperties.EquityBounds | scripts/backtest_metrics.py:97-104 | Equity never goes below zero and the fractional drawdown stays in [0, 1]. |
| MetricsProperties.PacketIgnoresOrder | scripts/backtest_metrics.py:46-126 | Any permutation of the trades gives the same packet. |
| MetricsProperties.AvailableExactly | scripts/backtest_metrics.py:18-90 | A packet is available exactly when there are trades, every one has its return and exits no earlier than its signal, and for net returns costs are complete, sourced and reconcile to a billionth on one common basis. |
| MetricsProperties.UnavailableSays | scripts/backtest_metrics.py:51-90 | An unavailable packet names exactly the defects there are and counts the trades it could not use. |
| MetricsProperties.RoundIsNearest | scripts/backtest_metrics.py:108-125 | Rounding gives the nearest multiple of the unit, the even one of two. |
| MetricsProperties.PacketMeaning | scripts/backtest_metrics.py:46-126 | An available packet describes the returns of exactly the given trades in the order of their exits: expectancy, wins and losses by sign, profit factor, the largest fall of cumulative R, and of the equity curve that starts at one and is multiplied by one plus return times risk its largest relative fall and its end. |
| Metrics.KeyOrder | scripts/backtest_metrics.py:129-147 | Selection keys are totally ordered. |
| Splits.PurgeSeparates | scripts/historical_backtest.py:80-90 | Given outcomes within the horizon, every train exit precedes every later signal, every validation exit every holdout signal. |
| Splits.SplitsAgree | scripts/historical_backtest.py:80-90 | Train and validation parts are functions of the trades before development end less horizon. |
| Splits.ExpandingWalkForwardWindows | scripts/backtest_metrics.py:150-179 | The loop builds the specified windows, or reports the first failed check. |
| Splits.WindowsTile | scripts/backtest_metrics.py:163-179 | Test windows tile [first test, end) edge to edge, each with room for signals, training ending a horizon before. |
| Splits.WindowsAreEven | scripts/backtest_metrics.py:163-179 | All windows but the last have the same length, above the horizon, and are numbered from one. |
| Splits.WindowsExist | scripts/backtest_metrics.py:150-162 | There are windows exactly for a proper range, horizon and fraction, two folds or more, and folds longer than the horizon. |
| Splits.WindowsPartition | scripts/backtest_metrics.py:163-179 | Every instant of the test range lies in a window, and windows do not overlap. |
| Splits.WindowOutcomesSettle | scripts/backtest_metrics.py:168-179 | An outcome signalled in a window settles before the window ends. |
| PurgedRuns.EmittedTradesSettle | scripts/historical_backtest.py:1104-1230 | Every trade the scan emits exits after its signal and within the holding horizon. |
| PurgedRuns.NoOutcomeCrossesASplit | scripts/historical_backtest.py:80-90 | No outcome of emitted trades crosses from one split into a later one. |
| PurgedRuns.ReplayedTradesAreEmitted | scripts/calibrate_score_v2.py:143-167 | What a threshold replays from a report are still emitted trades. |
| PurgedRuns.NoOutcomeLeavesItsWindow | scripts/backtest_metrics.py:163-179 | An emitted trade observed in a walk-forward window is settled inside it. |
| Cooldown.ReplayCooldown | scripts/calibrate_waterfall.py:44-54 | The loop with its dictionary of release times computes the specified replay. |
| Cooldown.ReplayIsOptimal | scripts/calibrate_waterfall.py:41-53 | Per symbol, kept trades are a cooldown apart and no spaced choice of the selected trades is larger. |
| Cooldown.KeptExactly | scripts/calibrate_score_v2.py:157-166 | A trade is kept exactly when it does not predate the epoch and no kept trade of its symbol is still cooling down. |
| Cooldown.NothingBeforeTheEpoch | scripts/calibrate_score_v2.py:157-166 | No pool keeps a trade from before the epoch, and a pool of one trade loses it exactly then. |
| Cooldown.ReplaySpaced | scripts/calibrate_waterfall.py:46-53 | Kept trades of one symbol are pairwise at least the cooldown apart. |
| Cooldown.ReplayedInOrder | scripts/calibrate_waterfall.py:46-46 | Trades are replayed in order of time, and of symbol at one time, whatever the order of the pool. |
| Cooldown.ReplayOfSymbol | scripts/calibrate_waterfall.py:45-53 | Symbols are replayed independently of each other. |
| Cooldown.ReplayedAgree | scripts/calibrate_waterfall.py:44-54 | Pools that agree before an instant are replayed alike before it. |
| Cooldown.GreedyStaysAhead | scripts/calibrate_waterfall.py:46-53 | After any prefix the greedy replay is at least as long as any spaced selection and, when level, free no later. |
| Candles.Resample | scripts/historical_backtest.py:838-848 | The bucket dictionary and sorted pass compute the specified bars. |
| CandleProperties.BarsSummarise | scripts/historical_backtest.py:838-848 | In a gapless series every bar has the first open, last close, reached extremes and total volume of an aligned block of consecutive candles. |
| CandleProperties.BlocksHaveBars | scripts/historical_backtest.py:838-848 | Every complete aligned block has its bar. |
| CandleProperties.BarsAreDistinct | scripts/historical_backtest.py:838-848 | Bars come in strictly increasing order of their starts, so no block has two. |
| CandleProperties.ValidatedCandles | scripts/historical_backtest.py:233-249 | A validated series is long enough, sound and gapless, and holds exactly the given candles of the window. |
| CandleProperties.ValidatesExactly | scripts/historical_backtest.py:233-249 | Validation succeeds if and only if a hundred rows are inside the window, all sound, each exactly five minutes after the window row before it. |
| Candles.ClosedBarsAgree | scripts/historical_backtest.py:876-880 | Series that agree on the candles opened before an instant have the same bars closed by it. |
| Candles.BisectSelects | scripts/historical_backtest.py:1094-1100 | `bisect_right` on close times selects exactly the bars closed by the instant. |
| Evaluate.Evaluate | scripts/historical_backtest.py:1071-1230 | The whole scan, memo and cooldown included, equals its specification. |
| Evaluate.EvidenceMemo.Latest | scripts/historical_backtest.py:1094-1100 | The memoised lookup returns what recomputing would, whatever has been cached before. |
| Evaluate.ScanCandles | scripts/historical_backtest.py:1102-1230 | The loop over trigger indices emits the specified signals or the first settlement error. |
| Evaluate.Consider | scripts/historical_backtest.py:1105-1229 | One trigger index: wait, candidate, threshold, settlement, new cooldown. |
| Evaluate.CandidateShape | scripts/historical_backtest.py:1105-1161 | A candidate is stamped with its candle close and scored only under the Score V2 filter. |
| Scan.ScannedAt | scripts/historical_backtest.py:1104-1104 | Walking past the last index in steps of the trigger interval reaches the whole scan. |
| Emission.SignalsAreSettled | scripts/historical_backtest.py:1104-1190 | Every signal is the candidate of a row the scan stops at, and its trade is settled from the next candle on: out at the stop, open times one plus the stop percentage, on the first candle that reaches it; at the target, open times one less the target percentage, on the first that reaches it before; else at the last close. |
| Emission.NoCandidateIsMissed | scripts/historical_backtest.py:1104-1230 | Every candidate past the signal start and at the threshold is a signal, in a direct run unless an earlier one is less than the cooldown before it; signals of a direct run are a cooldown apart. |
| Emission.CandidateExactly | scripts/historical_backtest.py:1105-1161 | Row i has candidate d if and only if the evidence of the last hundred closed bars, the strategy, the macro series, the volume of the last day and the derivatives filter, each written out, admit it. |
| Emission.SettlementMeans | scripts/historical_backtest.py:974-1011 | Settlement at each of the three exits, with price, return, times and reason. |
| Emission.OneWayOut | scripts/historical_backtest.py:974-1011 | Exactly one of the three exits happens, at one candle. |
| Emission.SettlesExactly | scripts/historical_backtest.py:974-979 | Settling refuses an empty horizon, then an entry outside the candles, and otherwise succeeds where it need not divide by zero. |
| Emission.ScansExactly | scripts/historical_backtest.py:1081-1089 | The settings a scan accepts, and what it says to the others. |
| NoLookAhead.EvaluateDoesNotLookAhead | scripts/historical_backtest.py:1071-1230 | Equally long gapless series that agree on rows 0..i yield the same decisions up to row i: times, stages, score, evidence, derivatives, admitted and skipped alike, in both modes. |
| Derivatives.ScanDoesNotLookAhead | scripts/historical_backtest.py:540-577 | The same with macro series, daily metric archives and funding histories that agree up to row i: what any of them holds later is not looked at. |
| Derivatives.ReadingsAgree | scripts/historical_backtest.py:566-610 | Both derivatives lookups read nothing after their instant, whatever the archives and the funding history hold later. |
| Derivatives.MetricIsLatest | scripts/historical_backtest.py:555-575 | A metric is found if and only if one of the day or the day before lies within the ten minutes up to the instant; the found one is the latest. |
| Derivatives.HistoricalDerivatives.AtOrBefore | scripts/historical_backtest.py:566-575 | The memoised lookup returns what looking into the archives anew would. |
| Derivatives.DerivativesRead | scripts/historical_backtest.py:577-625 | Score V2 derivatives come from the funding standing and the latest metrics within ten minutes now and an hour ago, the others from the two metrics; without them there are none. |
| NoLookAhead.DecisionsAgree | scripts/historical_backtest.py:1102-1230 | The same for any two sources of candidates that agree up to an index. |
| NoLookAhead.CandidateAgrees | scripts/historical_backtest.py:1105-1161 | The candidate at an index is decided by the candles up to it. |
| NoLookAhead.EvidenceAgrees | scripts/historical_backtest.py:1094-1100 | Evidence at an instant depends only on candles opened before it. |
| PoolReplay.PoolReplayRefinesDirectRun | scripts/calibrate_score_v2.py:143-167 | For every threshold the direct run succeeds, and its signals -- trades with stages, score, evidence and derivatives -- are, up to the pool flag, exactly those of the emitted pool whose trades the replay keeps. |
| PoolReplay.ReportReplayRefinesDirectRuns | scripts/calibrate_score_v2.py:143-167 | The same per symbol, signal by signal, for a report over many symbols. |
| PoolReplay.RefinementNeedsScores | scripts/historical_backtest.py:1105-1229 | The direct run succeeds whenever the pool run does, and its trades are the replayed pool if and only if the Score V2 filter is on or no trigger index from the signal start and the epoch on has a candidate. |
| PoolReplay.VisitInLockstep | scripts/historical_backtest.py:1105-1229 | One trigger index keeps the direct run and the replay of the pool together. |
| Outcomes.OutcomeDetails | scripts/historical_backtest.py:974-1011 | The loop settles by the first candle that touches a level, stop first. |
| Outcomes.FirstTouchDecides | scripts/historical_backtest.py:974-1011 | Win, loss and timeout each hold if and only if the stated touch condition over the horizon does. |
| Outcomes.RealizedRange | scripts/historical_backtest.py:233-249 | With sound candles and positive levels, realised R is target/stop, -1, or strictly between. |
| Outcomes.LongerHorizonKeepsTouches | scripts/historical_backtest.py:974-1011 | A longer horizon changes no win or loss, nor its exit. |
| Outcomes.ExitsWithinHorizon | scripts/historical_backtest.py:974-1011 | Every exit lies after the entry candle opens and within the horizon. |
| Funding.Gather | scripts/historical_backtest.py:420-458 | Pagination computes the specified rows and ends for any replies: requests start strictly later each time. |
| Funding.Parse | scripts/historical_backtest.py:474-507 | The loop with its dictionary by time computes the specified events, or refuses. |
| Funding.HistoricalFunding.Rows | scripts/historical_backtest.py:384-509 | Answers are remembered per symbol, failures included; a completed retrieval replaces the cache file when it can be written. |
| Funding.HistoricalFunding.AtOrBefore | scripts/historical_backtest.py:511-523 | The answer is the standing of the remembered history, or of the one its first lookup retrieves, remembers and stores. |
| Funding.HistoricalFunding.Between | scripts/historical_backtest.py:525-537 | Reversed windows are refused before any lookup; otherwise the answer slices the remembered history, or the one its first lookup retrieves, remembers and stores. |
| FundingProperties.RetrievalIsComplete | scripts/historical_backtest.py:384-509 | Against a server that returns the first thousand events from the cursor, with no cache or a true prefix, the history is exactly the events of the range, strictly ordered. |
| FundingProperties.ParsedExactly | scripts/historical_backtest.py:474-508 | Rows parse if and only if each is usable and no two disagree about an instant; the result is strictly ordered and contains exactly their events. |
| FundingTerms.HistoryMeans | scripts/historical_backtest.py:474-508 | Rows parse if and only if each has a time, a rate and no unusable mark and no two of one time differ; the history holds exactly their events, in strict order. |
| FundingTerms.ExchangeIsAskedExactly | scripts/historical_backtest.py:396-430 | A cache of the same start that reaches the end makes the exchange unnecessary; without one there is no history without its answer. |
| FundingTerms.GatheredRowsNameTheirRequest | scripts/historical_backtest.py:421-467 | A retrieval keeps the rows it starts from, and each row it adds came with the reply to a request in the range, which it names as its source. |
| FundingTerms.BillMeans | scripts/historical_backtest.py:1049-1068 | The bill is the sum of rate times mark per unit of the entry: a short receives what is positive. |
| FundingProperties.CacheRoundTrip | scripts/historical_backtest.py:396-469 | Reading the written cache gives the same history without the server and writes nothing again. |
| FundingProperties.StandingIsLatest | scripts/historical_backtest.py:511-523 | The standing is the latest event not after the instant, refused if and only if none is within eight hours; the history is the last thirty days. |
| FundingProperties.ChargesAreInside | scripts/historical_backtest.py:525-537 | The charges of a window are exactly the events after its start and no later than its end. |
| FundingProperties.AdjacentWindowsJoin | scripts/historical_backtest.py:525-537 | Charges of (a, b] followed by those of (b, c] are those of (a, c]. |
| FundingProperties.HistoricalShortFundingR | scripts/historical_backtest.py:1049-1068 | The loop succeeds if and only if entry and stop are positive and the events billable and strictly ordered, and returns the rounded scaled sum. |
| FundingProperties.FundingIsAdditive | scripts/historical_backtest.py:1049-1068 | The bill over (a, c] is the sum of the bills over (a, b] and (b, c]. |
| TaskGraph.ValidateTaskGraph | scripts/wfh_mission.py:210-270 | The validator returns exactly the specified errors, in order; a cycle is reported if and only if the parent relation on known ids has one. |
| TaskGraphErrors.ErrorsExactly | scripts/wfh_mission.py:210-270 | Which errors there are, and about what: those of the entries, parents that no entry goes by, a cycle, and more than three tasks in progress. |
| TaskGraphErrors.EdgeMeans | scripts/wfh_mission.py:232-263 | The cycles looked for are those of the dependencies, as the last entry of a name lists them, on tasks that exist. |
| TaskGraphErrors.DuplicatesExactly | scripts/wfh_mission.py:248-250 | One error lists, in order, the ids that occur more than once. |
| TaskGraph.FindCycle | scripts/wfh_mission.py:250-267 | The search answers whether there is a cycle and, when not, leaves an order with every task after its parents; it ends on every graph. |
| TaskGraph.Search.Visit | scripts/wfh_mission.py:253-264 | A positive answer means a cycle; a negative one restores `visiting` and finishes the task with all it depends on. |
| TaskGraph.OrderedHasNoCycle | scripts/wfh_mission.py:250-267 | A topological order of all ids rules out cycles, self-loops included. |
| TaskGraph.AcceptedExactly | scripts/wfh_mission.py:210-270 | No error if and only if entries are well formed, ids unique, parents known, at most three tasks in progress, and no cycle. |
| Checkpoints.MissionDirectory.CreateCheckpoint | scripts/wfh_mission.py:582-705 | A valid mission is sealed by three replacements in order, cut off after any number of them; an invalid one changes nothing. It succeeds if and only if it is not cut off and the lists of the resume note can be joined. |
| MissionTerms.StatesExactly | scripts/wfh_mission.py:92-207 | The mission states sealing accepts, every required field, revision, capability and precondition written out. |
| MissionTerms.JournalsExactly | scripts/wfh_mission.py:363-384 | The journals sealing accepts: versioned, with different ids, each in progress or complete. |
| MissionTerms.SealsExactly | scripts/wfh_mission.py:620-675 | A mission is sealed exactly when its seven files are there, and state, journal and the others are accepted. |
| Checkpoints.MissionDirectory.LoadLatestCheckpoint | scripts/wfh_mission.py:708-747 | The checks in source order give the specified disposition. |
| Checkpoints.MissionDirectory.HighestCheckpointNumber | scripts/wfh_mission.py:537-545 | The listing loop finds the greatest six-digit number. |
| Checkpoints.MissionDirectory.JournalStepStart | scripts/wfh_mission.py:765-798 | A new step is appended unless its id is known; nothing else changes. |
| Checkpoints.MissionDirectory.JournalStepComplete | scripts/wfh_mission.py:801-813 | The first record of the id is completed; nothing else changes. |
| MissionRuns.CrashSafety | scripts/wfh_mission.py:665-747 | After any run of cut-off sealings, journal steps and edits, loading is refused or returns the highest-numbered checkpoint, exactly as one of the sealings wrote it. |
| MissionRuns.NeverOverwritten | scripts/wfh_mission.py:537-549 | No recognised checkpoint file ever changes or disappears in any run. |
| MissionRuns.OverwritesExactly | scripts/wfh_mission.py:548-549 | A sealing writes over an existing file if and only if 999999 is taken and the seven-digit file exists. |
| MissionRuns.SealingRestoresLoading | scripts/wfh_mission.py:665-747 | One further sealing that writes its pointer makes the mission load that checkpoint if and only if the highest number is below 999999. |
| MissionRuns.MillionthSealingBlocks | scripts/wfh_mission.py:537-549 | A mission that only seals, however its sealings die, loads after one that reached its pointer if and only if it has sealed at most 999999 times. |
| MissionRuns.SealingsAreCounted | scripts/wfh_mission.py:537-549 | The highest number counts the sealings until six digits are used up. |
| MissionRuns.FreshSealResumableExactly | scripts/wfh_mission.py:665-705 | Right after a sealing somebody can resume if and only if no step was open and the sealed state can be resumed. |
| MissionRuns.FailedNoteStillSeals | scripts/wfh_mission.py:582-705 | When the resume note cannot be put together, sealing raises with checkpoint and pointer written, and the new checkpoint loads. |
| MissionRuns.NullTasksAreValid | scripts/wfh_mission.py:148-207 | Any valid state with its completed tasks null is still valid, and has no resume note. |
| MissionRuns.CrashBeforePointerBlocks | scripts/wfh_mission.py:708-747 | A sealing that dies before its pointer leaves the mission blocked as a sequence regression, never on the older checkpoint. |
| MissionRuns.LoadedNumbersNeverDecrease | scripts/wfh_mission.py:708-747 | Along a run the number that loads never goes down. |
| MissionRuns.StepsAreNeverLost | scripts/wfh_mission.py:765-813 | Journal steps are never lost, altered or reopened, and ids stay unique, over any run that leaves the journal file alone. |
| MissionRuns.InterruptedWorkBlocks | scripts/wfh_mission.py:765-894 | After a step is started, no later guard resumes until the step was completed and a checkpoint sealed after that. |
| MissionRuns.StaysBlocking | scripts/wfh_mission.py:849-894 | What keeps the guard closed in each phase of a step survives every event. |
| MissionRuns.EditsReachEverything | scripts/wfh_mission.py:54-66 | Edits between sealings lead to any durable files whatever, so what holds of runs supposes nothing about the work done in between. |
| ResumeGuard.ResumeGuard | scripts/wfh_mission.py:1078-1133 | The gates in source order, then drift, decide as specified. |
| ResumeTerms.ResumesOnTheseTerms | scripts/wfh_mission.py:849-1133 | From a proper checkpoint the guard resumes if and only if no step is open, the seven files are as sealed, the worktree is clean, the five fields are the texts observed, each capability reaches its minimum by name, and each precondition holds. |
| ResumeTerms.GuardAnswers | scripts/wfh_mission.py:849-1133 | Whatever it answers is about the first thing in the way, with the step, files or identities concerned. |
| ResumeTerms.NothingLoadedNothingResumed | scripts/wfh_mission.py:708-747 | Where the pointer leads to no checkpoint, nobody resumes. |
| ResumeTerms.CapabilitiesExactly | scripts/wfh_mission.py:949-979 | The capability gate opens if and only if each required capability is observed as AVAILABLE or above, AUTHORIZED_READ or above, or AUTHORIZED_WRITE, as its minimum says. |
| ResumeTerms.LoadsExactly | scripts/wfh_mission.py:708-747 | A checkpoint loads if and only if the pointer leads to it with its digest, mission and number, of at most six digits, and no recognised file has a higher one. |
| ResumeTerms.PointerAnswers | scripts/wfh_mission.py:711-717 | Nothing loads as missing or as an invalid pointer exactly when there is no pointer file, or one that names no path. |
| ResumeTerms.PathAnswers | scripts/wfh_mission.py:718-726 | A named file does not load as missing, of another digest, or not JSON exactly when it is the first of these. |
| ResumeTerms.SequenceAnswers | scripts/wfh_mission.py:727-741 | A checkpoint of the digest fails to load for another mission, another number, a number of seven digits, or a higher file, exactly in this order. |
| ResumeGuard.ResumesExactly | scripts/wfh_mission.py:849-1133 | The guard resumes if and only if the checkpoint loads, no step is open, the seven files are as sealed, the worktree is clean now and at sealing, all identities match, capabilities suffice and preconditions hold. |
| ResumeGuard.MoreCapabilitiesStillResume | scripts/wfh_mission.py:949-979 | Raising observed capabilities never takes away permission to resume. |
| ResumeGuard.ResumableExactly | scripts/wfh_mission.py:849-1133 | Some observation and some capabilities let a loaded checkpoint be resumed if and only if no step of it is open, its files are as sealed, and its state was sealed clean, with five text identities and preconditions that hold as sealed. |
| MissionRuns.SealedYetNotResumable | scripts/wfh_mission.py:665-705 | Any sealable mission edited to null preconditions, a dirty worktree or a number for its branch is still sealable, if the secret scan and the control-file validators accept it, and nobody can resume what it seals. |
| ResumeGuard.ValidYetNotResumable | scripts/wfh_mission.py:148-207 | Any valid state with one of these three edits is still valid, and is not one that can be resumed. |
| ResumeGuard.OnlyAsSealed | scripts/wfh_mission.py:897-1002 | There is one observation that can pass, and only if the state was sealed clean with text identities: the sealed one. |
| ResumeGuard.StateFilesGateOpens | scripts/wfh_mission.py:865-894 | The gate opens if and only if every durable file exists with its sealed digest. |
| ResumeGuard.ObservationsOpen | scripts/wfh_mission.py:897-1002 | Cleanliness, observation and drift checks pass together if and only if everything is observed, clean and as sealed. |
| ResumeGuard.CapabilityGateOpens | scripts/wfh_mission.py:949-979 | The gate opens if and only if every required capability reaches its minimum rank. |
| ResumeGuard.PreconditionGateOpens | scripts/wfh_mission.py:1039-1075 | The gate opens if and only if the preconditions are a list and each is met. |
| ResumeGuard.InterruptedGateOpens | scripts/wfh_mission.py:849-862 | The gate opens if and only if the journal is readable and neither journal has an open step. |
| GithubMirror.PointerIsCommittedLast | scripts/wfh_mission.py:1404-1465 | Over any attempts with any failures: a checkpoint the pointer issue names has its comment and the mission issue shows it or a newer one; no checkpoint is posted for twice. |
| GithubMirror.SuccessMeansMirrored | scripts/wfh_mission.py:1404-1465 | A reported success leaves both issues on the checkpoint, with its comment, posted exactly when no comment had its marker, and says so. |
| GithubMirror.Issues.Sync | scripts/wfh_mission.py:1404-1465 | The synchronisation, request by request under any network, equals its specification. |
| GithubMirror.Issues.ListComments | scripts/wfh_mission.py:1351-1369 | The page loop returns every comment or fails. |
| GithubMirror.RunKeeps | scripts/wfh_mission.py:1404-1465 | Every attempt keeps the comment discipline and the commit order. |
| GithubMirror.TooManyComments | scripts/wfh_mission.py:1357-1369 | From ten thousand comments on, under any network, no synchronisation succeeds. |
| GithubMirror.SyncsExactly | scripts/wfh_mission.py:1351-1465 | When every request works, a synchronisation succeeds if and only if the checkpoint loads, the issues are the mission's, and there are fewer than ten thousand comments. |
| MirrorRuns.MirrorShowsSealedCheckpoints | scripts/wfh_mission.py:1404-1465 | Over any interleaving of mission work, crashes, attempts and lost requests: what the pointer issue names is a checkpoint the mission sealed, with its comment, shown or passed on the mission issue; none is posted for twice. |
| MirrorRuns.AttemptsGoForward | scripts/wfh_mission.py:1404-1410 | Attempts that load from a mission directory load numbers that never go down. |
| RecoveryTerms.VerdictsExactly | scripts/verify_production_cutover.py:371-410 | Among checks that take turns and save, each verdict is a matter of the true history: ten minutes after the last recovery, an hour after the third last, three failures in a row, the lock and the command. |
| RecoveryTerms.RecoversExactly | scripts/verify_production_cutover.py:371-410 | So a check recovers if and only if all of these allow it: the limits are not stricter than stated. |
| RecoveryLimits.BoundedExactly | scripts/verify_production_cutover.py:371-410 | Among checks that take turns, recoveries stay ten minutes apart and at most three an hour whatever comes next, if and only if every check that recovers saves its state. |
| RecoveryLimits.CommandsBoundedExactly | scripts/verify_production_cutover.py:386-402 | The same for the commands issued, if and only if every one of them succeeds and is saved. |
| RecoveryLimits.ThreeFailuresExactly | scripts/verify_production_cutover.py:373-384 | Every recovery is at least the third unhealthy check in a row whatever comes next, if and only if each check that starts the count over saves that or had nothing to forget. |
| RecoveryLimits.FreshRecoveriesAreBounded | scripts/verify_production_cutover.py:333-410 | With checks overlapping, files lost and saves failing, the limits hold as long as every check that recovers or leaves a file has loaded one that knows all recoveries before it. |
| RecoveryLimits.RecoveriesAreBounded | scripts/verify_production_cutover.py:371-410 | Checks that take turns and save every recovery keep the limits, whatever else they fail to save. |
| RecoveryLimits.RecoveryFollowsThreeFailures | scripts/verify_production_cutover.py:375-384 | A recovery is the third or later unhealthy check in a row if every earlier restart of the count is remembered. |
| RecoveryLimits.FileCovers | scripts/verify_production_cutover.py:333-410 | The pruned file says of the full history all that the limits ask: its last time and those of the last hour. |
| RecoveryLimits.FileStaysSmall | scripts/verify_production_cutover.py:371-404 | The file of any run at all holds at most three times. |
| RecoveryLimits.FailedCommandsAreNotLimited | scripts/verify_production_cutover.py:396-400 | A failed command uses up neither cooldown nor budget: the next unhealthy check issues it again. |
| RecoveryOverlap.OverlapExactly | scripts/verify_production_cutover.py:333-410 | Given which file each check has loaded and which checks saved theirs, recoveries keep the limits whatever else happens, if and only if of any two checks that could have counted three failures the later has loaded a state the earlier had a part in. |
| RecoveryOverlap.LinkedIsBounded | scripts/verify_production_cutover.py:371-410 | Checks linked in this way keep the limits at every point of the run. |
| RecoveryOverlap.UnlinkedBreaks | scripts/verify_production_cutover.py:371-410 | For two checks that are not, there is a run in which both recover at the same moment. |
| RecoveryLimits.HealthyCheckIsForgotten | scripts/verify_production_cutover.py:375-384 | A concrete run in which a healthy check that is not saved is followed by a recovery at the next failure. |
| RecoveryLimits.OverlapBreaks | scripts/verify_production_cutover.py:371-393 | After any recovery, a check a second later that loaded the same file recovers too and breaks the limits. |
| RecoveryLimits.UnsavedRecoveryIsForgotten | scripts/verify_production_cutover.py:400-402 | A concrete run of three checks whose unsaved recovery lets the next check recover a second later. |
| Recovery.Host.MaybeRecover | scripts/verify_production_cutover.py:371-410 | One check: the verdict, the saved state, the command issued only while holding the deploy lock, the lock as it was afterwards. |
| Recovery.Host.Compose | scripts/verify_production_cutover.py:396-396 | The recovery command requires the lock to be held. |
| DashboardStream.LatestWins | backend/src/waterfallhunter/main.py:2855-2867 | For any broadcasts and any resumption: queue within its bound and ending with the event just broadcast, delivered ids strictly increasing, drained clients at or past the last broadcast. |
| DashboardStream.Broadcast | backend/src/waterfallhunter/main.py:2855-2867 | Every client is offered the event, the oldest entry of a full queue being dropped; nothing else changes. |
| DashboardStream.Client.Turn | backend/src/waterfallhunter/main.py:5161-5170 | The generator yields the replay first, then queued events newer than what was delivered. |
| DashboardStream.Client.Snapshot | backend/src/waterfallhunter/main.py:5139-5160 | Draining the queue and merging it with the fresh snapshot equals its specification. |
| DashboardStream.MergedAscends | backend/src/waterfallhunter/main.py:5154-5160 | The dictionary by id, sorted, loses and invents no id and ascends. |
| DashboardStream.MergedTakesTheLast | backend/src/waterfallhunter/main.py:5154-5160 | Of several events of one id exactly the last survives the merging. |
| DashboardStream.OfferedKeepsTheLatest | backend/src/waterfallhunter/main.py:2855-2867 | A queue keeps the latest two of what it is offered. |
| DashboardStream.EventBuffer.Append | backend/src/waterfallhunter/core/dashboard_stream.py:343-377 | Ids are consecutive; a full event supersedes the rest; the oldest is dropped at the limit. |
| DashboardStream.EventBuffer.ReplayAfter | backend/src/waterfallhunter/core/dashboard_stream.py:379-416 | A replay is given if and only if the id seen is the latest, is retained, or a newer complete state is; it is everything after that id, or from the first newer complete state on. |
| DashboardStream.EventBuffer.CatchingUpAscends | backend/src/waterfallhunter/core/dashboard_stream.py:379-416 | Such a replay ascends, is newer than what was seen, and ends at the latest event. |
| PaperTrades.TradesAreConserved | backend/src/waterfallhunter/main.py:1136-1328 | Opened trades are exactly the active, the recorded and those a restart forgot, with multiplicity, if and only if no write took effect and was reported as failed; then none is missing if and only if no restart found one active. |
| PaperTrades.Recorder.Restart | backend/src/waterfallhunter/main.py:1136-1136 | A new process starts with no active trades. |
| PaperTrades.StopOutsAreLosses | backend/src/waterfallhunter/main.py:1290-1297 | Every stop-out that any run records under the advice contract of 4 to 18 is a net loss. |
| PaperTrades.SecondTargetPaysMore | backend/src/waterfallhunter/main.py:1290-1297 | For every trade any run opens under that contract, leaving at the second target pays strictly more than at the first. |
| PaperTrades.ProjectedAdviceIsIgnored | backend/src/waterfallhunter/core/entry_decision.py:357-388 | Advice as decisions carry it keeps the contract, and being a float it is never taken: every trade of every run opens at the policy minimum. |
| PaperTrades.UnreportedRowsAreRepeated | backend/src/waterfallhunter/main.py:1311-1328 | A write that took effect but was reported as failed is made again by the next settlement. |
| PaperTrades.UnreportedWriteUnbalances | backend/src/waterfallhunter/main.py:1311-1328 | A run of one trade and one such write in which rows and trades no longer balance. |
| PaperTrades.SettlesExactly | backend/src/waterfallhunter/main.py:1254-1328 | A committed settlement takes exactly the trades that leave, one row each: at the stop for a price there or above, at the second target there or below, at the first between them, after a day at the price or, without one, at the entry; the others stay as they are, in order. |
| PaperTrades.StartsExactly | backend/src/waterfallhunter/main.py:1149-1210 | A start opens a short exactly for short levels and a symbol without one, for thirty dollars times the leverage. |
| PaperTrades.NothingOverdueStays | backend/src/waterfallhunter/main.py:1254-1284 | After a committed settlement nothing active is older than a day or has reached a level. |
| PaperTrades.RecordedFaithful | backend/src/waterfallhunter/main.py:1290-1309 | Every row of every run settles a well-formed short at its stop, a target or its timeout price, with the stated result. |
| PaperTrades.Recorder.StartBacktestTrade | backend/src/waterfallhunter/main.py:1149-1210 | A trade opens only for short geometry and a symbol without one, at the advised leverage if that is available and an int, else at the minimum. |
| PaperTrades.Recorder.CheckBacktestTrades | backend/src/waterfallhunter/main.py:1246-1328 | Settlement writes all rows at once and only then drops the settled trades. |
| ReleasePublisher.PublicationIsSafe | scripts/certify_remote_sqlite_backup.py:228-396 | Under any lost requests and partial listings: every release that is not an own draft survives, every release of another tag unchanged, every existing tag survives, nothing goes out after the publish command. |
| ForeignReleases.ForeignUntouchedExactly | scripts/certify_remote_sqlite_backup.py:228-396 | Whatever the network does, a publication leaves every foreign release exactly as it was, if and only if beforehand each release of its tag is an own draft, or is published with all the assets already. |
| ForeignReleases.PublicationReaches | scripts/certify_remote_sqlite_backup.py:337-396 | Any release of the tag can be reached: some network lets the publication succeed and upload to and publish that one. |
| ForeignReleases.StrangerIsPublished | scripts/certify_remote_sqlite_backup.py:337-396 | A concrete run in which somebody else's draft of the tag receives the assets and is published. |
| ReleasePublisher.LeavesForeignExactly | scripts/certify_remote_sqlite_backup.py:366-396 | One upload or publish command leaves every foreign release as it was if and only if the first release of the tag it sees is none, an own draft, or one it would not change. |
| PublicationRuns.WorkingPublication | scripts/certify_remote_sqlite_backup.py:337-396 | When everything works, a publication of a new tag ends with the one new release, published with exactly its assets. |
| PublicationRuns.FailedUploadIsCleanedUp | scripts/certify_remote_sqlite_backup.py:370-385 | A failed upload, whether or not it took effect, leaves neither draft nor tag behind when the rest works. |
| PublicationRuns.FailedCreationIsCleanedUp | scripts/certify_remote_sqlite_backup.py:350-365 | So does a creation that took effect although it was reported as failed. |
| PublicationRuns.FailedLookupIsCleanedUp | scripts/certify_remote_sqlite_backup.py:361-373 | So does a draft that could not be looked up after its creation. |
| PublicationRuns.FoundExactly | scripts/certify_remote_sqlite_backup.py:248-306 | The lookup takes the draft it is shown under the tag, else lists up to eight times and takes an own draft that is the only one among the first hundred shown. |
| ReleasePublisher.FreshMarkerTouchesNothingOld | scripts/certify_remote_sqlite_backup.py:344-353 | With an unused marker everything that existed before survives. |
| ReleasePublisher.UncertainPublicationDeletesNothing | scripts/certify_remote_sqlite_backup.py:387-396 | Once the publish command went out, the commands were create, upload, publish and nothing else. |
| ReleasePublisher.Repository.PublishReleaseAssets | scripts/certify_remote_sqlite_backup.py:337-396 | The publication, command by command under any network, equals its specification. |
| ReleasePublisher.Repository.OwnedDraftReleaseId | scripts/certify_remote_sqlite_backup.py:269-306 | The lookup by tag and the bounded visibility loop equal their specification. |
| ReleasePublisher.Repository.DeleteOwnedDraftBestEffort | scripts/certify_remote_sqlite_backup.py:309-334 | Cleaning up deletes the found draft and then, if asked, the tag. |
| ReleasePublisher.FoundLooks | scripts/certify_remote_sqlite_backup.py:248-306 | A lookup changes nothing, and what it finds is a draft with this tag and marker. |
| ReleasePublisher.CleaningIsSafe | scripts/certify_remote_sqlite_backup.py:309-334 | Cleaning up deletes nothing foreign and no tag it was not allowed to. |
| Sequences.StableSortIsTheOnlyOne | scripts/calibrate_waterfall.py:46-46 | Any order-respecting stable rearrangement equals the sort used here, so nothing depends on the algorithm. |

## Left out

- Floating point: arithmetic is exact over `real`; `round` is half-to-even on the exact value, where the program rounds binary floats.
- The numbers in `evidence`, RSI, EMA, Score V2 components, slippage and fee profiles enter the scan as deterministic functions of what the code passes them.
- Reports, summaries, promotion eligibility, `train` summaries and the degradation figure of the calibrations; the masking of an invalid walk-forward packet in the Score V2 report.
- Candle download, archives, symbol universe, command lines, rendering and Prometheus metrics.
- Rows that are not lists of numbers, and trades that are not dictionaries with an integer timestamp: the model's rows and trades are already parsed.
- TaskGraph.Search.Visit: does not model Python's recursion limit, which a very long parent chain would exceed.
- Mission files are modelled by their parsed content: an edit that only reformats a JSON file changes its digest in reality and not here; a checkpoint path that holds other valid JSON is reported as invalid JSON.
- JSON numbers are integers, and `True == 1` does not hold as it does in Python; a precondition field that is not text names no field.
- Which names the state-file and capability gates list is modelled for changed files only; descriptions of unmet preconditions are not.
- The scan of the mission state for secrets and the validators of the other control files are parameters of the model.
- Locks are mutual exclusion: mission and GitHub operations are single steps with respect to each other; temporary files are invisible to the directory listing.
- GithubMirror: issue titles and bodies are compared by the identity they carry; listings show every comment that exists.
- RecoveryLimits.FreshRecoveriesAreBounded: gives a condition that suffices for overlapping checks; the exact one is `RecoveryOverlap.OverlapExactly`. A clock that goes back is not considered, and a lost state file is a check that has loaded no turn of the run.
- ReleasePublisher.PublicationIsSafe: an uploaded asset or a publication may reach a foreign release of the same tag; which one a tag resolves to is the first of that tag the remote shows.
- The verification of the downloaded backup, its encryption and the local staging files.
- Derivatives: the parsing of a metric archive, which refuses a whole day for one malformed row, whatever its time; two histories of which one has lost a day that way do not agree.
- ForeignReleases.ForeignUntouchedExactly: release ids are positive, as the remote assigns them.
- The frontend, the hunter loop, entry decisions, stores, notifications and all linters of skills and manifests: plumbing or single-branch checks.
