# VNEDGE research and operations models

This project models the state machines, scans and recurrences that the VNEDGE repository relies on, and
proves what they keep over every run, every tape and every interleaving. Loops that update variables in the
source are methods with loops here, each proved equal to a recursive specification; the laws are lemmas about
the specification. The chart data provider, whose methods update its fields, is a class.

What an operation decides is also stated on its raw input alone, without the functions it is built from: which bars
make an event, an entry, a stop or a trade, which service a cycle restarts, which answer the chart accepts. Those
laws are in the `...Tape`, `...Detectors`, `...Events`, `...Cycle`, `...Steps`, `...Regimes` and `...Columns` modules.

| files | what they model |
|---|---|
| `Common.dfy` | candles, optional cells, extremes, sums, the median |
| `Segments.dfy`, `Indicators.dfy`, `HourlyContext.dfy`, `IndicatorColumns.dfy`, `HourlyRegimes.dfy`, `Averages.dfy` | the scoring study's columns: recurrences that restart at a bad calendar slot, and the hourly context built from five-minute children |
| `ScoringStudy.dfy`, `ScoringStudyLaws.dfy`, `ScoringStudyRestart.dfy`, `ScoringStudyMirror.dfy`, `ScoringStudyNoBias.dfy`, `ScoringStudyDetectors.dfy`, `ScoringStudyEvents.dfy` | the frozen scoring study: confirmed swing anchors, fair-value-gap slots, the used set, the five detectors, features and scores |
| `Watchdog.dfy`, `WatchdogLaws.dfy`, `WatchdogCycle.dfy` | the service watchdog's restart policy and its cycle, with crashes and failures between the pre-restart save, the restart and the final save |
| `ChartCandles.dfy`, `ChartProvider.dfy`, `ChartProviderLaws.dfy`, `ChartRevisions.dfy`, `ChartSteps.dfy` | the chart data provider: each synchronous stretch between awaits is one atomic step |
| `AccountPath.dfy` | the account path of a trade book and its ruin over all orderings |
| `BurstResponse.dfy`, `BurstTape.dfy` | the volume-burst screen and its non-overlapping reservation |
| `Coverage.dfy` | the two-sided first-passage scan and its attribution |
| `SlowSleeve.dfy`, `SlowSleeveMirror.dfy`, `SlowSleeveTape.dfy` | the slow sleeves' setups, exits and books, and how symmetric they are |
| `HtfReplay.dfy`, `HtfLaws.dfy`, `HtfTape.dfy` | the continuation replay: pending arm, open position, cooldown, daily allowance |
| `Columns.dfy`, `Zones.dfy` | forward fill, group-cumulative columns, rolling windows; zones carried forward by them |
| `OrderBlock.dfy`, `OrderBlockV2.dfy`, `FairValueGap.dfy`, `SmcBreakout.dfy`, `Supertrend.dfy`, `OrderBlockTape.dfy`, `SmcTape.dfy` | the ported strategies |
| `SqueezeWindows.dfy`, `SqueezeWindowsLaws.dfy`, `SqueezeTape.dfy` | the squeeze and hybrid replays: sliding sums, rank window, episode ids, and the trigger's episode latch |

## Assumptions

- Prices, basis points and equity are real numbers; rounding of floating point is not modelled. A missing cell
  (`None`, NaN, `null`) is an option, and a comparison with one is false.
- Where a law needs it, candles satisfy low <= open, close <= high with positive prices (`ValidTape`); a law that
  needs less says so in its `requires`.
- The watchdog's clock does not run back and a watched service has a container in every cycle. What happens
  otherwise is stated by `ClockBackForgets` and `AbsentServiceForgets`.
- Content hashes identify eligible bars (`DistinctHashes`); only the law that needs it assumes it.
- Host callbacks of the chart provider do not throw and do not call back into it. Subscription objects are positions
  in a table; a replaced subscription keeps its position.
- For the laws about one history only, the server answers with its own lake's hashes
  (`src/vnedge/dashboard/chart_series.py:125-133`), and lakes with one hash have one past (`OnePast`).
- When the docker call of a cycle takes effect is arbitrary; `RealRestartBudget` is stated for any bound on it.
- The continuation and squeeze replays take every answer of the exit engine and of the scanner or trigger as
  arbitrary. An arm names the bar it was made on (`src/vnedge/strategy/realtime_scanners.py:972-974`) and has positive
  levels; closing an open position at once always yields a decision at the price asked for, because these replays use
  no scale-out ladder (`src/vnedge/execution/exit_engine.py:293-327`).
- The ATR column of the order-block, gap and breakout candidates is an input, and their witness tapes use the
  candidate's own; the Supertrend law is also stated for the candidate's own ATR.

## Where the code and its description differ

- `research/account_path.py:11-14` says that under fixed notional the final equity is order-independent. That holds
  for the equity of unruined orderings, but a ruined ordering reports zero: `ReportedOrderFree` gives the exact
  condition, the losses alone leaving some margin or the total leaving none, and `OrderChangesReport` two orderings
  that differ.
- `research/coverage_analysis.py:11-13` calls EARLY an exit before the move completed. `EarlyLabelRightExactly` says
  when the label is right: unless every position in the event entered late and stayed to its end. Such an event is
  EARLY too (`LateEntryIsEarly`).
- `data/strategies/ai/lux_fair_value_gap_ai.py:3-8` buys the first retrace into a gap. The first-retrace test reads a
  column that includes the formation bar, whose own extreme is the gap's near edge, so the candidate never signals
  (`NeverSignals`); `OnlyTheRetraceTestFails` shows that, given a positive ATR and a pad that is not negative, nothing
  else stands in the way.
- `data/strategies/ai/lux_order_block_ai.py:3-9` enters on the first later bar that comes back to the block. The column
  starts at the break bar, so that bar is an entry exactly when the break bar itself stayed clear
  (`FirstLaterReturn`); `ReturnMissed` is a tape on which it did not.
- `research/uplift_book_replay.py:7` calls the sleeves long/short symmetric. A bar that breaks both ways and closes back
  inside is a flush setup on both sides and is always taken long: `FlushSymmetricExactly` says that this is the only
  exception, router on or off. The pullback sleeve has none without the router; the router's drift test
  (`research/uplift_book_replay.py:119`) is relative to the price, which reflection changes:
  `PullbackSymmetricExactly` says exactly when that matters, and `RouterBreaksSymmetry` that it does.
- `scripts/service_watchdog.py:28` names two restarts per hour. The budget counts attempts, stamped with the clock read at
  the start of the cycle (`scripts/service_watchdog.py:101`); the docker call comes later and may take 90 s
  (`scripts/service_watchdog.py:60`). The bound on attempts, which `docs/AVAILABILITY_20260913.md:31-33` promises, is
  `RestartBudget`; the one on restarts when they happen is `RealRestartBudget`, and `DelayBreaksTheHour` shows that no
  delay is short enough for two an hour.
- `frontend/src/vela/VnedgeDataProvider.ts:157-163` discards the chart when the lake was repaired. It compares the answer
  with the revision its request was sent with, not with the one stored by then: `OneHistory` says when all bars handed
  out come from one history and `OverlapSplits` shows two requests in flight that break it.
- `data/strategies/ai/fmz_supertrend_flip_ai.py:37` starts two rows after the first possible flip, so the first entry
  taken can be on either side (`EntriesAlternate`, `FirstEntryCanBeLong`).
- `data/strategies/ai/algoalpha_smc_breakout_ai.py:90-129` sets the target from the level, not the entry;
  `TargetAheadExactly` says when it is ahead of the close and `TargetCanBeBehind` shows that it need not be.

## Model

| member | source | states |
|---|---|---|
| Segments.GroupIsStretch | research/reports/context_scoring_20260913/screen.py:68-69 | Grouping eligible slots by the running count of bad ones yields exactly the unbroken eligible stretches |
| Segments.StartAfterBad | research/reports/context_scoring_20260913/screen.py:68-69 | Dropping everything up to a bad slot only shifts the later stretches |
| Indicators.Wilder | research/reports/context_scoring_20260913/screen.py:47-59 | The in-place averaging loop computes Wilder's RSI at every row, missing for the first n rows |
| Indicators.Rsi | research/reports/context_scoring_20260913/screen.py:58 | RSI of non-negative averages lies in 0..100, with the flat and no-loss cases settled |
| Indicators.HeikinAshiBodies | research/reports/context_scoring_20260913/screen.py:83-88 | The running Heikin-Ashi open gives each row's recursive body |
| Indicators.RowCausal | research/reports/context_scoring_20260913/screen.py:69-88 | All eight indicator columns at a row depend only on the rows up to it, although they are computed on the whole stretch |
| Indicators.IndicatorCausal | research/reports/context_scoring_20260913/screen.py:62-90 | Two calendars that agree up to a slot have the same indicators there |
| Indicators.IndicatorRestart | research/reports/context_scoring_20260913/screen.py:63-69 | Indicators after a bad slot are those of a calendar that starts after it: no recurrence bridges a gap |
| Averages.EmaResponds | research/reports/context_scoring_20260913/screen.py:71-72 | A close x higher lifts every later average by its decayed share, which fixes each weight of the average |
| Averages.MedianSplits | research/reports/context_scoring_20260913/screen.py:82 | At least half of the values lie on either side of the median |
| IndicatorColumns.ColumnsStart | research/reports/context_scoring_20260913/screen.py:71-82 | Each column is there from its own window of the stretch on |
| IndicatorColumns.MeansRespond | research/reports/context_scoring_20260913/screen.py:71-78 | A last close x higher lifts the two averages by 2/21 and 2/51 of x, and the MACD histogram by 0.8 (2/13 - 2/27) of it |
| IndicatorColumns.HistogramFollowsLine | research/reports/context_scoring_20260913/screen.py:76-78 | The histogram is positive at a new high of the MACD line and negative at a new low |
| IndicatorColumns.AtrAmongRanges | research/reports/context_scoring_20260913/screen.py:73-75 | The average range lies among the true ranges of the last twenty bars |
| IndicatorColumns.TrueRangeSpans | research/reports/context_scoring_20260913/screen.py:73-74 | A true range spans the bar and the close before it |
| IndicatorColumns.StochasticPlaces | research/reports/context_scoring_20260913/screen.py:80-81 | The stochastic is the close's share of the way from the lowest low to the highest high of fourteen bars |
| IndicatorColumns.RsiFollowsCloses | research/reports/context_scoring_20260913/screen.py:47-59 | Closes that only rise have an RSI of 100, closes that only fall one of 0 |
| IndicatorColumns.HaBodyFollowsPrice | research/reports/context_scoring_20260913/screen.py:83-88 | The Heikin-Ashi body is up when the bar's mean price tops all before it |
| HourlyContext.ContextCovers | research/reports/context_scoring_20260913/screen.py:93-114 | A known regime rests on at least 21 consecutive complete hours of eligible children, all ended by the decision close, and its hashes are exactly theirs |
| HourlyContext.ContextCausal | research/reports/context_scoring_20260913/screen.py:253-266 | The hourly context of a decision, hash prefix included, uses nothing after the decision's own close |
| HourlyContext.ContextRestart | research/reports/context_scoring_20260913/screen.py:99-113 | Fifty slots after a bad slot the context is the one of a calendar starting after that slot |
| HourlyRegimes.RegimeExactly | research/reports/context_scoring_20260913/screen.py:102-113 | An hour is up or down exactly when net progress is three tenths of the path or more and the close is on that side of its average; unknown exactly before twenty hours |
| HourlyRegimes.RisingIsUp | research/reports/context_scoring_20260913/screen.py:102-113 | Hours that rise all the way are in an up regime |
| HourlyRegimes.ContextExactly | research/reports/context_scoring_20260913/screen.py:253-255 | In terms of slots: a bar's regime is that of the last hour over by its close, unknown unless all twelve of its slots are eligible |
| HourlyRegimes.AcceptedExactly | research/reports/context_scoring_20260913/screen.py:194-199 | A calendar is accepted exactly when its times are every five minutes and no eligible bar is still forming |
| ScoringStudy.Scan | research/reports/context_scoring_20260913/screen.py:203-290 | The bar loop over anchors, gaps, used set, hits and events equals the fold of the step function |
| ScoringStudy.EmitAll | research/reports/context_scoring_20260913/screen.py:268-289 | The loop over detectors emits, in detector order, one event for each that fires on exactly one side |
| ScoringStudy.Generate | research/reports/context_scoring_20260913/screen.py:193-290 | The calendar checks reject in the source's order, and otherwise the run's state is returned |
| ScoringStudyLaws.SeeCausal | research/reports/context_scoring_20260913/screen.py:206-266 | Everything a bar looks at is fixed by the bars up to it |
| ScoringStudyLaws.EventsGrow | research/reports/context_scoring_20260913/screen.py:287 | Later bars only append events, each stamped with its own bar |
| ScoringStudyLaws.NoLookAhead | research/reports/context_scoring_20260913/screen.py:193-290 | For every calendar and cut n, the study on the first n slots yields exactly the full study's events decided before slot n, regime and context hashes included |
| ScoringStudyLaws.AnchorHygiene | research/reports/context_scoring_20260913/screen.py:206-229 | At every bar: at most two anchors a side with strictly increasing positions, each a strict pivot of eligible bars with no bad slot since; gaps at most 12 bars old and unviolated |
| ScoringStudyLaws.OneShotBreaks | research/reports/context_scoring_20260913/screen.py:247-252 | Each (side, anchor hash) is broken at most once in the whole run, as BOS or CHOCH, data gaps included |
| ScoringStudyLaws.BreakEventsLogged | research/reports/context_scoring_20260913/screen.py:247-252 | Every BOS or CHOCH event carries one of those one-shot breaks |
| ScoringStudyDetectors.AnchorsAreSwings | research/reports/context_scoring_20260913/screen.py:206-220 | The anchors are exactly the last two strict swings of each kind since the last bad slot: none is missed |
| ScoringStudyDetectors.TrendExactly | research/reports/context_scoring_20260913/screen.py:117-125 | The trend is up exactly when the last two swing lows and the last two swing highs on the bars went up, down when both went down |
| ScoringStudyDetectors.UsedIsBroken | research/reports/context_scoring_20260913/screen.py:247-252 | A (side, hash) is used exactly when an earlier deciding bar closed through the latest swing of that content, in a trend |
| ScoringStudyDetectors.FiresExactly | research/reports/context_scoring_20260913/screen.py:233-252 | What each of the five detectors reads off the state is its meaning on the bars |
| ScoringStudyDetectors.OneSide | research/reports/context_scoring_20260913/screen.py:269 | No detector fires both ways on one bar |
| ScoringStudyDetectors.EventsExactly | research/reports/context_scoring_20260913/screen.py:203-290 | For every calendar, bar, detector and side the run has the event if and only if the bars show it, with no reference to the running state |
| ScoringStudyDetectors.EventsOnTapes | research/reports/context_scoring_20260913/screen.py:203-290 | On bars whose low is not above their high that is just when the bars show it |
| ScoringStudyDetectors.CountersExactly | research/reports/context_scoring_20260913/screen.py:207-232 | Bad slots and warm-up bars are counted exactly |
| ScoringStudyEvents.GapsAreOpen | research/reports/context_scoring_20260913/screen.py:221-229 | The gap slots hold exactly the latest gaps still open on the bars |
| ScoringStudyEvents.EventsFaithful | research/reports/context_scoring_20260913/screen.py:128-177 | Every event's stamps, anchors with their strengths, all fourteen features and scores are those its bar and the bars before it show |
| ScoringStudyEvents.GroupCounts | research/reports/context_scoring_20260913/screen.py:181-185 | A group scores the share of true ones among its available members |
| ScoringStudyEvents.ScoreAdds | research/reports/context_scoring_20260913/screen.py:186-190 | What each group adds to the balanced score, to each regime's score and to the scores without a group |
| ScoringStudyLaws.OneEventPerDetector | research/reports/context_scoring_20260913/screen.py:268-289 | Events are in bar order, then detector order, so no detector has two events on a bar |
| ScoringStudyLaws.ScoreBounds | research/reports/context_scoring_20260913/screen.py:180-190 | Every score lies in 0..100; balanced and regime scores reach 100 on exactly the same features, those with every group full |
| ScoringStudyRestart.SeeRestart | research/reports/context_scoring_20260913/screen.py:214-266 | After a bad slot a bar sees exactly what it would in a calendar starting on the following slot |
| ScoringStudyRestart.FeaturesShift | research/reports/context_scoring_20260913/screen.py:128-177 | Features do not depend on absolute bar positions |
| ScoringStudyRestart.GapRestart | research/reports/context_scoring_20260913/screen.py:207-211 | No state crosses a gap: what follows a bad slot is a fresh study's run with positions shifted, given that hashes identify bars |
| ScoringStudyMirror.RsiMirror | research/reports/context_scoring_20260913/screen.py:58 | Exchanging gains and losses turns the RSI r into 100 - r, in every case |
| ScoringStudyMirror.RowMirror | research/reports/context_scoring_20260913/screen.py:69-88 | On prices reflected about a level every indicator column is its own reflection |
| ScoringStudyMirror.SeeMirror | research/reports/context_scoring_20260913/screen.py:206-266 | A bar of a reflected tape sees highs for lows, down-gaps for up-gaps and a down regime for an up one, and nothing else changes |
| ScoringStudyNoBias.FiresMirror | research/reports/context_scoring_20260913/screen.py:233-252 | Each detector fires on a side exactly when it fires on the opposite side of the reflected bar |
| ScoringStudyNoBias.FeaturesMirror | research/reports/context_scoring_20260913/screen.py:128-177 | Every feature of a side is the same feature of the opposite side of the reflected bar |
| ScoringStudyNoBias.NoDirectionalBias | research/reports/context_scoring_20260913/screen.py:193-290 | Over every calendar and reflection level the run on the reflected tape is the reflected run: each event once, on the opposite side, with the same features, scores and context hashes |
| Watchdog.RestartExactly | scripts/service_watchdog.py:31-56 | A restart is chosen if and only if the service is governed, running, up long enough, unhealthy for the third persisted time, with budget left and outside every recent attempt's cooldown |
| Watchdog.VisitAll | scripts/service_watchdog.py:103-118 | The loop over listed services, with a fault anywhere in it, equals the fold of one visit |
| Watchdog.RunCycle | scripts/service_watchdog.py:99-126 | A whole cycle: visits, missing core services and the final save, which is skipped on a fault or a read-only run |
| WatchdogLaws.CycleEffect | scripts/service_watchdog.py:99-126 | A cycle restarts only after the attempt was saved; the disk either has this cycle's assessment with the attempt or is as before with none made |
| WatchdogLaws.OneRestartPerCycle | scripts/service_watchdog.py:100-118 | At most one attempt and one restart per cycle, and each restart has its attempt |
| WatchdogCycle.DueExactly | scripts/service_watchdog.py:31-56 | A restart is chosen exactly for a due service: governed, up ten minutes, unhealthy for the third time, fewer than two attempts in the hour and none in fifteen minutes |
| WatchdogCycle.ReadOnlyTouchesNothing | scripts/service_watchdog.py:106-125 | A cycle without apply attempts, restarts and writes nothing |
| WatchdogCycle.NothingDueNothingDone | scripts/service_watchdog.py:103-118 | Nor is anything attempted when nothing is due |
| WatchdogCycle.FirstDueIsRestarted | scripts/service_watchdog.py:103-118 | In an applied cycle the first due service, and no other, is attempted if the save succeeds and restarted if the call takes effect |
| WatchdogCycle.AttemptsOnlyWhenApplied | scripts/service_watchdog.py:106-115 | Over every run each attempt is dated by a cycle that was told to apply |
| WatchdogCycle.FinalRows | scripts/service_watchdog.py:103-125 | A completed cycle leaves exactly the rows of the listed and the missing core services, the first due one with its attempt, later due ones put off |
| WatchdogLaws.RunKeepsLedger | scripts/service_watchdog.py:35-56 | Over every run the pruned history is exactly what the last hour needs, attempts are spaced, the failure counter is the trailing run of unhealthy persisted assessments, and an attempt follows at least three |
| WatchdogLaws.HourBudget | scripts/service_watchdog.py:28-51 | Any half-open 3600 s window holds at most two attempts |
| WatchdogLaws.LongBudget | scripts/service_watchdog.py:28-51 | A window of h hours holds at most 2h attempts |
| WatchdogLaws.RestartsAreAttempts | scripts/service_watchdog.py:112-118 | Each real restart has a saved attempt of its own; counted by the time stamped on that attempt, no window holds more restarts than attempts |
| WatchdogLaws.RestartBudget | scripts/service_watchdog.py:26-56 | Over every run with any crashes and failures: attempts at least 900 s apart and within the hourly budget in every window, and restarts too when counted by their attempts' stamps |
| WatchdogLaws.RealRestartBudget | scripts/service_watchdog.py:101-118 | Counted when they happen, if the docker call takes effect within d of the clock reading: at most 2h restarts in any window of h hours less d, and at most one more in a window 900 s longer |
| WatchdogLaws.DelayBreaksTheHour | scripts/service_watchdog.py:101-118 | For every delay of up to 90 s a run within the policy whose real restarts fall three to an hour |
| WatchdogLaws.ClockBackForgets | scripts/service_watchdog.py:35 | A clock that runs back drops the history, so a spent budget allows another restart |
| WatchdogLaws.AbsentServiceForgets | scripts/service_watchdog.py:119-126 | A service absent from a cycle loses its history at the final save |
| ChartCandles.CanonicalIdempotent | frontend/src/vela/VnedgeDataProvider.ts:32-33 | The canonical symbol is alphanumeric upper case and canonicalising it again changes nothing |
| ChartCandles.CanonicalExactly | frontend/src/vela/VnedgeDataProvider.ts:32-33 | A name ends at its first colon, is read character by character, and keeps exactly its letters, as upper case, and its digits |
| ChartCandles.OrderedUnique | frontend/src/vela/VnedgeDataProvider.ts:53-77 | Filling a map by time and sorting its values equals ordered insertion, failing on the first bad or conflicting candle |
| ChartCandles.UniqueExactly | frontend/src/vela/VnedgeDataProvider.ts:53-80 | A page is accepted if and only if every candle is verified and finite and equal times carry equal bars; the result is strictly increasing and represents exactly the candles |
| ChartCandles.CandlesShown | frontend/src/vela/VnedgeDataProvider.ts:42-77 | An accepted page shows every candle, in milliseconds, with its prices and volume |
| ChartCandles.GapSlotsCount | frontend/src/vela/VnedgeDataProvider.ts:103-107 | On aligned candles the gap count is the number of missing slots |
| ChartSteps.FeedExactly | frontend/src/vela/VnedgeDataProvider.ts:103-113 | Lateness is shown first, then a missing proof, then the last bar's own; a page without bars is empty or unverified |
| ChartProvider.VnedgeDataProvider.constructor | frontend/src/vela/VnedgeDataProvider.ts:125-140 | A new provider is loading, with nothing stored, subscribed or requested |
| ChartProvider.VnedgeDataProvider.NotifyState | frontend/src/vela/VnedgeDataProvider.ts:142-146 | State is stored and published unless destroyed |
| ChartProvider.VnedgeDataProvider.AcceptPayload | frontend/src/vela/VnedgeDataProvider.ts:148-172 | Reading a payload: every refusal in the source's order, revision invalidation, baseline and tail updates |
| ChartProvider.VnedgeDataProvider.GetBars | frontend/src/vela/VnedgeDataProvider.ts:212-228 | Another market gets an empty page, an unsupported timeframe an error, and neither changes anything; otherwise a request goes out that remembers the baseline it was made under |
| ChartProvider.VnedgeDataProvider.PageArrives | frontend/src/vela/VnedgeDataProvider.ts:229 | An answered page returns exactly its accepted bars |
| ChartProvider.VnedgeDataProvider.SubscribeBars | frontend/src/vela/VnedgeDataProvider.ts:232-300 | An unsupported timeframe, and then another market, is an error that changes nothing; joining a subscription adds a callback, and a first one starts from the known tail and polls at once |
| ChartProvider.VnedgeDataProvider.PollTick | frontend/src/vela/VnedgeDataProvider.ts:255-272 | A tick sends a request only for a live, listened-to subscription that has none in flight |
| ChartProvider.VnedgeDataProvider.PollArrives | frontend/src/vela/VnedgeDataProvider.ts:273-295 | A poll answer lands whatever it holds, and delivers only for the subscription in force |
| ChartProvider.VnedgeDataProvider.HandleAnswer | frontend/src/vela/VnedgeDataProvider.ts:274-291 | Acceptance, the truncated catch-up and delivery, in the source's order |
| ChartProvider.VnedgeDataProvider.DeliverBars | frontend/src/vela/VnedgeDataProvider.ts:281-288 | The delivery loop equals offering the bars one by one |
| ChartProvider.VnedgeDataProvider.UnsubscribeBars | frontend/src/vela/VnedgeDataProvider.ts:302-310 | Leaving removes the callback, and the subscription with the last one |
| ChartProvider.VnedgeDataProvider.DestroyProvider | frontend/src/vela/VnedgeDataProvider.ts:313-319 | Destruction is recorded and every subscription dropped |
| ChartProviderLaws.DeliverOk | frontend/src/vela/VnedgeDataProvider.ts:281-288 | Delivery keeps time order, never repeats the preceding bar and never goes below the tail known at subscription |
| ChartProviderLaws.DeliversSuffix | frontend/src/vela/VnedgeDataProvider.ts:281-288 | From an accepted page a poll delivers one whole suffix: all bars after the stale or repeated ones |
| ChartProviderLaws.AcceptReads | frontend/src/vela/VnedgeDataProvider.ts:148-172 | A destroyed or invalidated provider accepts nothing; reading never moves stored revisions or tails back and invalidates with exactly one revision call |
| ChartProviderLaws.StepSafe | frontend/src/vela/VnedgeDataProvider.ts:212-319 | One step of any kind keeps the invariant; only a poll answer for the subscription in force delivers, only an answered page returns |
| ChartProviderLaws.DeliveryOrder | frontend/src/vela/VnedgeDataProvider.ts:232-311 | In every reachable state each subscription's bars are ordered, unrepeated and not before its tail, and it has at most one request, exactly while in flight |
| ChartProviderLaws.RevisionSafety | frontend/src/vela/VnedgeDataProvider.ts:148-172 | Over every run cutoffs and tails never decrease, invalidation and destruction are final, onRevision fires exactly once on invalidation and never otherwise, and nothing is returned or delivered afterwards |
| ChartSteps.AcceptExactly | frontend/src/vela/VnedgeDataProvider.ts:148-172 | An answer is accepted if and only if the provider is live, the answer its own and not rewritten, and its candles consistent; a rewritten one invalidates with one revision call |
| ChartSteps.AcceptedStores | frontend/src/vela/VnedgeDataProvider.ts:164-171 | What an accepted answer leaves stored and shown |
| ChartSteps.LoadExactly | frontend/src/vela/VnedgeDataProvider.ts:212-228 | A page call asks exactly for this market and a supported timeframe, with the stored revision |
| ChartSteps.TickExactly | frontend/src/vela/VnedgeDataProvider.ts:255-272 | A tick asks if and only if the provider is live, someone listens and no request is open; a feed silent for thirty seconds is shown stale first |
| ChartSteps.PageExactly | frontend/src/vela/VnedgeDataProvider.ts:229 | An answered page is handed out if and only if it is accepted |
| ChartSteps.PollExactly | frontend/src/vela/VnedgeDataProvider.ts:273-295 | A poll answer closes its request and delivers if and only if it is accepted for the subscription in force and not cut short of a known tail |
| ChartSteps.JoinExactly | frontend/src/vela/VnedgeDataProvider.ts:232-300 | A first subscriber starts from the newest known time with a request at once, a later one joins |
| ChartSteps.LeaveExactly | frontend/src/vela/VnedgeDataProvider.ts:302-310 | The last to leave ends the subscription, and only that one |
| ChartRevisions.GuardedExactly | frontend/src/vela/VnedgeDataProvider.ts:157-163 | Every accepted honest answer comes from a lake that extends the stored revision if and only if the request was sent with that revision, or it covers no rows |
| ChartRevisions.OneHistory | frontend/src/vela/VnedgeDataProvider.ts:157-172 | Over every run in which each answer meets the revision it was asked with, a lake whose bars are handed out extends every revision stored for the timeframe up to then |
| ChartRevisions.BaselineStays | frontend/src/vela/VnedgeDataProvider.ts:220-229 | An open request's baseline is the stored revision as long as no answer for its timeframe arrives, rejected ones aside |
| ChartRevisions.OverlapSplits | frontend/src/vela/VnedgeDataProvider.ts:157-172 | Two pages asked for before any answer and answered from different lakes are both handed out, with two prices for one bar and no reload |
| AccountPath.Walk | research/account_path.py:58-76 | The walk reports ruin exactly when some prefix reaches zero, the deepest drop between any two points of the surviving path, and the worst trade seen |
| AccountPath.EachTradeMoves | research/account_path.py:62-69 | Each trade moves the equity by its basis points of a size fixed on the margin, or risking its share of the equity up to the cap |
| AccountPath.FinalEquityOrderFree | research/account_path.py:11-13 | Under fixed leverage the unstopped final equity is the same for every ordering |
| AccountPath.SomeOrderRuins | research/account_path.py:58-76 | Some ordering is ruined if and only if the losses alone use up the margin |
| AccountPath.EveryOrderRuins | research/account_path.py:58-76 | Every ordering is ruined if and only if the total uses up the margin |
| AccountPath.AscendingIsWorst | research/account_path.py:11-14 | If the ascending ordering survives, every ordering does |
| AccountPath.ReportedOrderFree | research/account_path.py:10-14 | The exact condition under which the reported equity is order-independent |
| AccountPath.OrderChangesReport | research/account_path.py:58-76 | Two orderings of two trades, one reported as zero and the other as 130 |
| AccountPath.RiskRuin | research/account_path.py:67-73 | Under risk sizing a walk is ruined if and only if some single trade's factor is not positive |
| AccountPath.RiskOrderFree | research/account_path.py:67-76 | Under risk sizing ruin and reported equity are order-independent, the latter the margin times the product of the factors |
| AccountPath.RuinRate | research/account_path.py:79-88 | The rate counts exactly the ruined shuffles, and fails without trials |
| AccountPath.RiskRateAllOrNothing | research/account_path.py:79-88 | Under risk sizing all shuffles are ruined or none is |
| BurstResponse.SetupNeedsCompleteMinutes | research/reports/burst_response_20260912/screen.py:84-102 | A setup rests on 65 consecutive eligible minutes |
| BurstResponse.SetupCausal | research/reports/burst_response_20260912/screen.py:84-102 | Whether a bar is a setup is settled by the minutes up to its close |
| BurstResponse.BurstsInOrder | research/reports/burst_response_20260912/screen.py:100-111 | Setups come in strict time order, none before the calendar |
| BurstResponse.Events | research/reports/burst_response_20260912/screen.py:105-137 | The loop records exactly the greedily chosen setups, a choice that reads neither minutes nor claim, and its counts add up |
| BurstResponse.ReservationExact | research/reports/burst_response_20260912/screen.py:111-118 | Recorded decisions are at least 16 minutes apart and each skipped one is under 16 minutes after a recorded one |
| BurstResponse.ReservationOptimal | research/reports/burst_response_20260912/screen.py:111-118 | No set of setups pairwise at least 16 minutes apart is larger than the recorded one |
| BurstTape.ParentsBuilt | research/reports/burst_response_20260912/screen.py:84-90 | A five-minute bar is its five minutes: first open, last close, their extremes and volume, eligible when all are |
| BurstTape.SetupExactly | research/reports/burst_response_20260912/screen.py:91-101 | A bar is a setup exactly when thirteen bars are eligible and it moves ten basis points on twice the median volume into the outer fifth of its range |
| BurstTape.BurstsExactly | research/reports/burst_response_20260912/screen.py:110 | The bursts are exactly the setups, each with its own time and body |
| BurstTape.RecordExactly | research/reports/burst_response_20260912/screen.py:111-136 | A record's times, side and prices; it is measured exactly when its minutes are covered, and earns the move in its direction |
| BurstTape.ClaimsOppose | research/reports/burst_response_20260912/screen.py:120-134 | The two claims on one setup measure opposite results |
| Coverage.Passage | research/coverage_analysis.py:79-98 | The inner scan finds the first bar at which a side completes without its adverse half-move, or there is none within the horizon |
| Coverage.CompletesInPrices | research/coverage_analysis.py:79-98 | A move completes at the bar whose extreme is the move away while no bar up to it went half of it the other way |
| Coverage.ReachExactly | research/coverage_analysis.py:79-80 | The scan looks at the bars after its own, at most the horizon away |
| Coverage.OneWay | research/coverage_analysis.py:83-96 | With a positive move size no bar qualifies both ways |
| Coverage.FindEvents | research/coverage_analysis.py:70-99 | Events are exact first passages with disjoint spans, and every qualifying bar starts an event or lies inside one |
| Coverage.CauseExactly | research/coverage_analysis.py:138-147 | Caught means one position spans the event, early that some overlaps and none spans |
| Coverage.UncaughtExactly | research/coverage_analysis.py:138-154 | Gated and blind are the events no position met, told apart by an arm within the tolerance |
| Coverage.EarlyLabelRightExactly | research/coverage_analysis.py:11-13 | EARLY means that some position left before the move completed if and only if the positions in the event were not all late entries held to its end |
| Coverage.EarlyLabelsRightExactly | research/coverage_analysis.py:131-158 | Over a whole report: every EARLY event was left early if and only if no event has only late entries |
| Coverage.LateEntryIsEarly | research/coverage_analysis.py:138-147 | Such events exist: a position taken one bar late and held past the end makes an event EARLY that nothing left early |
| Coverage.Attribute | research/coverage_analysis.py:131-158 | The loop's counts and missed bps are those of the per-event cause |
| Coverage.Partition | research/coverage_analysis.py:131-158 | The four counts add up to the total and the missed bps to those of the events that were not caught |
| SlowSleeve.Ema | research/uplift_book_replay.py:100-105 | The accumulated average equals its recurrence at every row |
| SlowSleeve.EmaStaysInRange | research/uplift_book_replay.py:100-105 | The average never leaves the range of the closes so far |
| SlowSleeve.SlowExit | research/uplift_book_replay.py:125-147 | The exit loop equals the recursive exit |
| SlowSleeve.StopOnlyRatchets | research/uplift_book_replay.py:137-144 | The stop never moves against the position |
| SlowSleeve.ExitBounded | research/uplift_book_replay.py:125-147 | On every valid tape a stop or time exit nets at least minus the initial risk minus costs, after 1 to 48 bars, on the tape |
| SlowSleeve.ExitCausal | research/uplift_book_replay.py:125-147 | A stop exit or full-length hold is settled by the bars up to it |
| SlowSleeve.PlanSound | research/uplift_book_replay.py:172-180 | A plan enters at the close with its stop beyond the bar's own extreme and a positive risk |
| SlowSleeve.SetupCausal | research/uplift_book_replay.py:150-180 | Setups, router and averages included, are settled at the bar's close |
| SlowSleeve.FlushReclaimBook | research/uplift_book_replay.py:150-187 | The busy-until loop produces the book of its setups |
| SlowSleeve.PullbackTrendBook | research/uplift_book_replay.py:190-227 | The same for the pullback sleeve, with the average computed once |
| SlowSleeve.OnePositionAtATime | research/uplift_book_replay.py:153-187 | Each entry is strictly after the previous exit and each trade is its own setup's bounded outcome |
| SlowSleeve.BookWithinTape | research/uplift_book_replay.py:150-187 | Total held bars never exceed the tape |
| SlowSleeve.EverySetupTaken | research/uplift_book_replay.py:154-186 | No setup is missed: it is entered or falls while an earlier one is held |
| SlowSleeveTape.ExitOnTape | research/uplift_book_replay.py:125-147 | On the tape: the exit is the first bar that touches its stop, at the best of the initial stop and two ranges short of each high that is one and a half risks ahead, or the last bar of the holding period; it earns that move less costs |
| SlowSleeveTape.RegimeOnTape | research/uplift_book_replay.py:108-122 | Stress and expansion in terms of the range averages and the drift |
| SlowSleeveTape.FlushOnTape | research/uplift_book_replay.py:150-180 | The flush sleeve enters exactly the loud bars that leave the last twelve and come back, off stress when routed, with the stop half a range beyond |
| SlowSleeveTape.PullbackOnTape | research/uplift_book_replay.py:190-220 | The pullback sleeve enters exactly the touches of a moving average that close back with it, in expansion when routed |
| SlowSleeveTape.BookOnTape | research/uplift_book_replay.py:150-227 | Every booked trade entered and left as the tape calls for |
| SlowSleeveTape.WarmUps | research/uplift_book_replay.py:154-196 | The first bars looked at |
| Averages.SleeveEmaResponds | research/uplift_book_replay.py:100-105 | The weights of the sleeve's average |
| Averages.AtrsAmongRanges | research/uplift_book_replay.py:88-97 | Average ranges lie among the true ranges of their windows, for the sleeves those strictly before the bar |
| SlowSleeveMirror.FlushSymmetricExactly | research/uplift_book_replay.py:150-177 | With or without the router, the flush sleeve plans a bar and its reflection alike if and only if the bar is not both setups at once on a bar its gates let through |
| SlowSleeveMirror.FlushBookSymmetricExactly | research/uplift_book_replay.py:150-187 | The flush book of the reflected tape is the reflected book if and only if no bar it enters is both setups at once |
| SlowSleeveMirror.BothSetupsOccur | research/uplift_book_replay.py:154-177 | A concrete tape whose bar 62, the first one the sleeve visits, is both setups at once: plans and books then differ from the reflected ones, router on or off |
| SlowSleeveMirror.DriftMirror | research/uplift_book_replay.py:119 | Drift is the same move in price measured against another level, so reflection changes it |
| SlowSleeveMirror.PullbackSymmetricExactly | research/uplift_book_replay.py:190-218 | The pullback sleeve plans a bar and its reflection alike if and only if the router is off, there is nothing to gate, the volatility ratio alone decides, or both tapes are on the same side of the drift threshold |
| SlowSleeveMirror.RouterBreaksSymmetry | research/uplift_book_replay.py:119-121 | A concrete tape whose bar the routed pullback sleeve takes while it passes over the reflected bar, so that the whole books differ |
| SlowSleeveMirror.BookSymmetricExactly | research/uplift_book_replay.py:150-227 | For either sleeve, router on or off, the book of the reflected tape is the reflected book if and only if plans are alike on every bar no position is held into |
| SlowSleeveMirror.PullbackBookSymmetricExactly | research/uplift_book_replay.py:190-227 | The exact condition for the pullback book: every free bar meets the condition for one bar |
| SlowSleeveMirror.ExitSymmetric | research/uplift_book_replay.py:125-147 | The reflected position leaves on the same bar, for the same reason, after the same move in price |
| HtfReplay.Replay | research/htf_structure_continuation_replay.py:128-289 | The loop over pending, open position, cooldown, fires and trades equals the fold of the bar step |
| HtfLaws.RunKeepsLedger | research/htf_structure_continuation_replay.py:149-279 | In every reachable state a pending arm and an open position never coexist, the pending arm is the latest one, and every trade is the one its arm and the first exit decision call for |
| HtfLaws.TradesBooked | research/htf_structure_continuation_replay.py:158-289 | Every trade enters strictly after its arm and within its expiry, stop behind the entry, and ends at once at the stop, on the first later decision or with the data |
| HtfLaws.ArmsConsumedOnce | research/htf_structure_continuation_replay.py:228-256 | A later trade's arm is made no earlier than the previous exit, so arms are consumed once; entries respect the win or loss cooldown |
| HtfLaws.StepOpens | research/htf_structure_continuation_replay.py:196-279 | A bar opens at most one position, only under the day's allowance, and closing neither loses nor repeats one |
| HtfLaws.OneTradePerPosition | research/htf_structure_continuation_replay.py:158-194 | Every position ever open ends as exactly one trade, in order of entry |
| HtfLaws.DailyAllowance | research/htf_structure_continuation_replay.py:196-201 | Entries per UTC date never exceed the allowance |
| HtfLaws.RunRations | research/htf_structure_continuation_replay.py:196-201 | In every reachable state the day's count is exactly its entries |
| HtfTape.CandidateExactly | research/htf_structure_continuation_replay.py:93-114 | A touch fills at the level the bar went through, a close at itself within the chase limit, a long before a short |
| HtfTape.StopExactly | research/htf_structure_continuation_replay.py:117-125 | The stop is the further of the volatility stop and the structural one |
| HtfTape.EntersExactly | research/htf_structure_continuation_replay.py:228-262 | A bar enters if and only if an unexpired earlier arm is in hand, outside cooldown and allowance, and can be filled with a stop on its proper side |
| HtfTape.ArmsFollow | research/htf_structure_continuation_replay.py:276-279 | A new arm replaces the one in hand; else that one stays until entered or expired |
| HtfTape.TradesInPrices | research/htf_structure_continuation_replay.py:158-194 | Over every replay each trade enters, ends and is accounted for in prices, and the next entry waits the win cooldown exactly when the move paid more than the gate cost |
| HtfTape.GrossFollowsPrice | research/htf_structure_continuation_replay.py:164-168 | A trade earns exactly when the price moved its way; one stopped on its entry bar loses exactly its risk |
| Columns.IdIsLatest | data/strategies/ai/lux_order_block_ai.py:55-59 | The forward-filled row number is the latest marked row, missing before the first |
| Columns.GroupIsStretch | data/strategies/ai/lux_order_block_ai.py:69-75 | Rows with one identity are the stretch from its marked row to the row before the next |
| Columns.PriorIsStretch | data/strategies/ai/lux_order_block_ai.py:62-75 | Shift and cumulative extreme inside a group give the extreme from the marked row to the row before, missing on the first; the count is the age |
| Zones.FeatureNamesOneBar | data/strategies/ai/lux_order_block_ai.py:55-76 | Identity, zone and prior extreme always come from one and the same break bar |
| Zones.ColumnsAreTracker | data/strategies/ai/lux_order_block_ai.py:3-9 | The columns carry the state of a bar-by-bar tracker: the freshest zone and whether it is untouched |
| Zones.EntryGeometry | data/strategies/ai/lux_order_block_ai.py:137-144 | Stop beyond the far edge, target beyond the close, risk always positive |
| OrderBlock.FillZones | data/strategies/ai/lux_order_block_ai.py:35-53 | The in-place loop writes exactly the zone of each break |
| OrderBlock.Prepare | data/strategies/ai/lux_order_block_ai.py:97-111 | The prepared columns are those of the breaks of the previous swing window |
| OrderBlock.BlockBeforeBreak | data/strategies/ai/lux_order_block_ai.py:42-53 | bottom <= top < close of a bullish break bar (mirrored for a bearish one), the far edge being the window's extreme |
| OrderBlock.SignalRefinesScan | data/strategies/ai/lux_order_block_ai.py:113-166 | At every bar of every tape the stateless signal equals the stateful tracker's |
| OrderBlock.SideSignalExactly | data/strategies/ai/lux_order_block_ai.py:125-145 | A side signals if and only if the freshest block, young enough, was clear from its break on and this bar is the first to reach it |
| OrderBlock.OneEntryPerBlock | data/strategies/ai/lux_order_block_ai.py:113-166 | Two entries of one side are on different blocks |
| OrderBlock.FirstLaterReturn | data/strategies/ai/lux_order_block_ai.py:3-9 | The first later return is an entry exactly when the break bar itself stayed clear of the block |
| OrderBlock.ReturnMissed | data/strategies/ai/lux_order_block_ai.py:113-166 | A concrete tape with its own ATR whose break bar touches the block: the first later return goes unsignalled |
| OrderBlockTape.SignalExactly | data/strategies/ai/lux_order_block_ai.py:113-166 | On the bars alone: the candidate asks for a trade if and only if the latest break's block, young and untouched, is come back to now, with that stop and target |
| OrderBlock.SignalOccurs | data/strategies/ai/lux_order_block_ai.py:113-144 | A concrete tape on which, with its own ATR after the warm-up, the long entry fires with the stop and target stated |
| OrderBlockV2.Prepare | data/strategies/ai/lux_order_block_v2_ai.py:106-131 | The qualified columns take the row the zone was written on as identity |
| OrderBlockV2.BlockQualified | data/strategies/ai/lux_order_block_v2_ai.py:29-57 | Every block follows a displaced break that clears it by the clearance, and its bar was in the window and loud |
| OrderBlockV2.SignalRefinesScan | data/strategies/ai/lux_order_block_v2_ai.py:133-195 | The qualified signal equals the stateful tracker's, with the trend gate on top |
| OrderBlockV2.SideOfSignal | data/strategies/ai/lux_order_block_v2_ai.py:145-192 | Longs only above the slow average and shorts only below it |
| OrderBlockV2.OneEntryPerBlock | data/strategies/ai/lux_order_block_v2_ai.py:133-195 | Two entries of one side are on different blocks |
| OrderBlockTape.SignalExactly2 | data/strategies/ai/lux_order_block_v2_ai.py:133-195 | The same for impulses with loud blocks, and with the close on the trend's side of its average |
| FairValueGap.PriorNeverClear | data/strategies/ai/lux_fair_value_gap_ai.py:43-48 | After the formation bar the prior extreme never clears the gap |
| FairValueGap.RetraceInPrices | data/strategies/ai/lux_fair_value_gap_ai.py:3-8 | The documented entry in prices: the first bar back into the latest gap |
| FairValueGap.NeverSignals | data/strategies/ai/lux_fair_value_gap_ai.py:86-141 | The candidate returns no signal on any tape, at any bar, with any settings |
| FairValueGap.OnlyTheRetraceTestFails | data/strategies/ai/lux_fair_value_gap_ai.py:88-125 | At every documented entry each other column test passes, and with a positive ATR and a pad that is not negative so does the risk test: only the first-retrace test fails |
| FairValueGap.RetraceOccurs | data/strategies/ai/lux_fair_value_gap_ai.py:3-8 | A concrete tape with its own ATR on which a first retrace is due and goes unsignalled |
| SmcBreakout.SwingNamesOneBar | data/strategies/ai/algoalpha_smc_breakout_ai.py:28-61 | Identity, level, center and extreme close come from one confirmed swing |
| SmcBreakout.TestsAreFirstBreak | data/strategies/ai/algoalpha_smc_breakout_ai.py:114-120 | The two close tests pick out exactly the first close through the level since two wings before the confirmation |
| SmcBreakout.SignalIsFirstBreak | data/strategies/ai/algoalpha_smc_breakout_ai.py:105-146 | An entry is that first break, strictly after the confirmation |
| SmcBreakout.OneEntryPerSwing | data/strategies/ai/algoalpha_smc_breakout_ai.py:105-146 | Each swing gives at most one entry a side |
| SmcTape.SignalExactly | data/strategies/ai/algoalpha_smc_breakout_ai.py:90-146 | On the bars alone: the candidate asks for a trade if and only if this close is the first through the latest swing, with a unit that is a third of the range since it |
| SmcBreakout.StopBehindLevel | data/strategies/ai/algoalpha_smc_breakout_ai.py:90-129 | The level lies strictly between stop and close, and the target beyond the level |
| SmcBreakout.TargetAheadExactly | data/strategies/ai/algoalpha_smc_breakout_ai.py:121-129 | The target is ahead of the close if and only if the close ran less than a third of the range past the level |
| SmcBreakout.TargetCanBeBehind | data/strategies/ai/algoalpha_smc_breakout_ai.py:121-129 | A concrete tape with its own ATR, after the warm-up, whose long entry has its target already behind its close |
| Columns.AtrPositive | src/vnedge/strategy/indicators.py:38-42 | On bars of positive range the rolling mean true range is present and positive from its window on |
| Supertrend.Prepare | data/strategies/ai/fmz_supertrend_flip_ai.py:39-78 | The four-array band loop equals the band recurrence, missing cells included |
| Supertrend.PrefixInvariant | data/strategies/ai/fmz_supertrend_flip_ai.py:3-7 | A row depends on no later one |
| Supertrend.BandsExactly | data/strategies/ai/fmz_supertrend_flip_ai.py:59-74 | Each band tightens to its new basic value or starts over from it after a close past it; the trend turns exactly when the close passes the band against it |
| Supertrend.ClosesOnTrendSide | data/strategies/ai/fmz_supertrend_flip_ai.py:70-74 | Every bar of a run but its first closes on the trend's side of its line |
| Supertrend.FlipPasses | data/strategies/ai/fmz_supertrend_flip_ai.py:70-74 | A flip closes beyond the band it was held by |
| Supertrend.LineRetreatsExactly | data/strategies/ai/fmz_supertrend_flip_ai.py:60-74 | Exactly when the line of a continuing trend moves away |
| Supertrend.LineTightensOverRun | data/strategies/ai/fmz_supertrend_flip_ai.py:60-74 | From the second bar of a run on the line is monotone |
| Supertrend.SeedRetreatsExactly | data/strategies/ai/fmz_supertrend_flip_ai.py:54-69 | After the seed row the line retreats if and only if that row closed below its own basic band and the next basic band is lower still |
| Supertrend.FlipRetreatsExactly | data/strategies/ai/fmz_supertrend_flip_ai.py:60-74 | After a flip the line retreats if and only if the bands had crossed around the flip row's close and the next basic band is farther still |
| Supertrend.SeedCanRetreat | data/strategies/ai/fmz_supertrend_flip_ai.py:54-69 | A concrete tape with its own ATR whose line starts above the seed close and drops, the bands uncrossed |
| Supertrend.FlipCanRetreat | data/strategies/ai/fmz_supertrend_flip_ai.py:60-74 | A concrete tape with its own ATR on which a flip closes between crossed bands and the line drops |
| Supertrend.FlipsAreEntries | data/strategies/ai/fmz_supertrend_flip_ai.py:80-106 | Every flip and nothing else is an entry, its stop strictly beyond the close by the minimum distance |
| Supertrend.EntriesAlternate | data/strategies/ai/fmz_supertrend_flip_ai.py:80-106 | With positive ATR and nothing missing after warm-up, entries counted from any row after the seed row strictly alternate: the first goes against the trend of the row before, and their count tells the current trend |
| Supertrend.SeededEntriesStartShort | data/strategies/ai/fmz_supertrend_flip_ai.py:54-69 | Counted from the seed row or earlier the first entry is a short |
| Supertrend.EntriesAlternateOnTapes | data/strategies/ai/fmz_supertrend_flip_ai.py:37-106 | The same for the candidate's own ATR on bars of positive range, the warm-up row included |
| Supertrend.FirstEntryCanBeLong | data/strategies/ai/fmz_supertrend_flip_ai.py:37 | A concrete tape with its own ATR whose first entry from the warm-up row on is a long, the short before it never being asked about |
| SqueezeWindows.Slide | research/squeeze_trigger_replay.py:165-174 | Add-newest, drop-oldest keeps the exact sums over the at most 288 prior bars |
| SqueezeWindows.Rank | research/squeeze_trigger_replay.py:177-184 | Append and pop keep exactly the latest at most 2016 spans |
| SqueezeWindows.Advance | research/squeeze_trigger_replay.py:162-191 | Sums, rank window, episode count and compression flag equal their definitions at every bar |
| SqueezeWindows.SqueezeReplay | research/squeeze_trigger_replay.py:116-266 | Trades and trigger calls equal the run over windows taken by definition |
| SqueezeWindows.HybridReplay | research/hybrid_arm_replay.py:56-164 | The same for the hybrid replay's three modes |
| SqueezeTape.CompressedExactly | research/squeeze_trigger_replay.py:182-188 | A bar is compressed if and only if at most 403 of the latest 2016 spans are narrower than its own |
| SqueezeTape.NarrowestIsCompressed | research/squeeze_trigger_replay.py:187-188 | The narrowest of the latest spans is always compressed, a strictly widest never |
| SqueezeTape.SpanOnTape | research/squeeze_trigger_replay.py:179-181 | A span is the widest distance from a low to a high of the forty-eight bars before, over the last close |
| SqueezeTape.ArmExactly | research/hybrid_arm_replay.py:120-157 | When an arm is offered, of which kind, and the box, averages and price it holds |
| SqueezeTape.VwapAmongCloses | research/squeeze_trigger_replay.py:165-174 | The day's average price lies among the closes of the at most 288 bars before |
| SqueezeTape.EveryArmOffered | research/squeeze_trigger_replay.py:233-253 | On every bar without a position the arm there is, is offered |
| SqueezeTape.TradesPay | research/squeeze_trigger_replay.py:204-231 | Each position is the one the reply called for, and pays the move to the first exit less the fee |
| SqueezeWindowsLaws.SameEpisodeExactly | research/squeeze_trigger_replay.py:188-191 | Two compressed bars share an episode id if and only if compression held all the way between them |
| SqueezeWindowsLaws.IgnitionIdsApart | research/hybrid_arm_replay.py:132-146 | Ignition ids are negative, pairwise distinct and never a coil's |
| SqueezeWindowsLaws.EpisodesBurnOnce | src/vnedge/execution/trigger_engine.py:233-235 | Over every run, in every mode, the single-id latch burns each episode id at most once, by firing or by a chase: neither kind of arm unlocks the other |
| SqueezeWindowsLaws.StepPositions | research/hybrid_arm_replay.py:150-163 | A bar opens a position exactly when it burns an id by firing, and loses none |
| SqueezeWindowsLaws.EpisodesFireOnce | research/hybrid_arm_replay.py:144-157 | No episode id opens two positions in any mode |
| SqueezeWindowsLaws.ChasedNeverFires | src/vnedge/execution/trigger_engine.py:312-316 | An id burned by a chase opens no position in the whole run, before or after |
| SqueezeWindowsLaws.RunInOrder | research/hybrid_arm_replay.py:105-163 | Trades never overlap, are held at least one bar, and every trigger call carries its own bar's arm |

## Left out

- Network, storage and processes: fetchers, parquet files, Docker calls, locks and the JSON encoding. The watchdog keeps only what reaches its state file; its exit code, printed report and refusal of duplicate instances are not modelled.
- The exit engine, the rest of the trigger engine, the scanner and the session costs: their answers are arbitrary inputs.
- The scoring study's fitting and reporting (`allowed`, `fit_cells`, `run`, Sharpe ratios, bootstrap, verdicts), its event digest and its per-family counters.
- `detect_swings` is modelled on the seven-bar window the study passes to it, as a strict pivot.
- `info`, `listSymbols` and `getSymbolInfo` of the chart provider, the texts of its states, and its timers: a tick may come at any time.
- `arm_index` of the coverage analysis: its sums are those of `SqueezeWindows.Slide`, and its arm sources are outside this model.
- The copies of the strategies that differ only in their id, and the strategies whose signal is a single row test.
- Panels, charts, auth and API types of the frontend; argument parsing and printing everywhere.
- Timestamps in trade records are positions on the tape, except where the source compares them.
- The random generator behind the resampled orderings: the shuffles drawn are an input.
- Slippage past a stop: the sleeves and replays fill a stop at its own price, as the source does.
