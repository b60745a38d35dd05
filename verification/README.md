# Bharat Ticker: a verified model of the market-data engine

This project models the engine of Bharat Ticker, a service for Indian equity market data, and proves
properties of it with Dafny. It covers:

- **the live-candle pipeline**: samples enter a bounded ring under a "one source owns the key" rule, one
  pass buckets them into OHLCV candles, an incremental flush upserts 1-second bars into a table, and a
  query rolls those bars up again when a past day is read;
- **the circuit breaker and the failover cascade** built from it;
- **the token-bucket rate limiter**;
- **split and bonus back-adjustment** of historical candles;
- **the byte-bounded TTL cache** and **the single-flight quote cache**;
- **the trading calendar**.

Code that updates objects is modelled by classes whose methods are proved against a step function on
values (`LiveCandleEngine.Record` against `LiveCandles.Step`, `CircuitBreaker` against `Observe`, `Admit`,
`Succeed`, `Fail`, and so on). Loops stay loops. The theorems are then proved about runs of those step
functions.

Times and prices are exact reals, running volume totals are integers (as in `TickData.volume`), the table
of one key is a map from epoch second to bar, clocks and provider answers are parameters.

## Files

| file | content |
|---|---|
| `Wrappers.dfy`, `Rounding.dfy`, `Bars.dfy` | options and list tails; Python's `round`; bars as a semigroup and grouping by slot |
| `LiveCandles.dfy`, `LiveCandleLaws.dfy` | the live engine; what its candles mean, conserve and depend on |
| `IntradayBuilder.dfy` | the second candle pipeline and its agreement with the first |
| `IntradayStore.dfy`, `FlushRuns.dfy`, `RollUpRead.dfy` | flushing, all runs of flushes, reading back |
| `CircuitBreaker.dfy`, `BreakerRuns.dfy` | the breaker; runs with any number of calls in flight |
| `Failover.dfy`, `FailoverLaws.dfy` | the cascade; whom it serves from and how it loads a dead provider |
| `RateLimiter.dfy` | the token bucket |
| `CorpActions.dfy`, `CorpActionLaws.dfy` | split detection and adjustment; settling and rounding |
| `TtlCache.dfy`, `TtlCacheLaws.dfy` | the TTL cache; its agreement with the log of operations |
| `SingleFlight.dfy` | the quote cache with shared fetches |
| `Calendar.dfy` | trading days and sessions |

## What the proofs show about the code

Most intended properties hold as stated. Where one needs a condition, the condition is part of the theorem:

- An incremental flush equals a full rebuild exactly if the ring still reaches back before the high-water
  second, or what it no longer holds would not have changed a bar (`FlushIsFullIff`). The second way out never
  applies when the oldest sample in the ring carried volume: its second is then overwritten with too small a
  volume.
- Reading a past day returns the live engine's own candles of the requested width, for every history and day,
  exactly if the width is a whole number of seconds dividing 1800, because stored bars are 1 second wide and
  Indian days start 19800 seconds off the epoch grid (`PastReadIsLiveIff`). Two of the widths the service offers
  fail: a past day asked for at 250 ms or 500 ms is served in 1-second bars (`OfferedWidths`).
- Other sources leave no trace in a key's samples exactly if each of their usable readings comes within the
  ownership TTL of the owner's latest one (`SourceNonInterference`).
- A half-open breaker admits a call exactly if the trials of its episode that succeeded, were cancelled or
  are still running number less than `half_open_max_calls` (`AdmitsIff`). A *cancelled* call ends outside
  `except Exception`, records nothing and keeps its slot. So the breaker never wedges as long as every
  admitted call ends (`HalfOpenAdmitsWhenIdle`), and with nothing in flight it is wedged exactly if won and
  cancelled trials have used up all slots (`WedgedIff`), for good (`WedgeIsForever`). A single cancelled trial
  can be enough, under every configuration (`CancelledTrialsWedge`).
- A half-open breaker closes exactly at the `half_open_max_calls`-th success recorded while half-open since it
  was last closed or reset (`ClosesAtFullCredit`), not of the last episode: that one has fewer exactly if the
  success count was not zero as it opened (`ClosingEpisode`), and any carry-over does occur
  (`SuccessesOutliveTheirEpisode`). Late successes of calls admitted while closed count too, so a breaker can
  close without a trial (`LateSuccessesClose`).
- Split adjustment settles in one pass in exact arithmetic. With the code's rounding it need not: rounded
  prices can create a split (`RoundedMayNotSettle`), and so can truncated volumes, at ordinary prices
  (`TruncationMayNotSettle`). A gap that no event touches stays quiet whatever its prices. Any other does if for
  every factor its prices are out of matching range by more than rounding can move them, or its volumes refuse
  the factor by a margin or are never truncated, opening prices under 0.0001 rupees aside (`ClearGapIsSettled`).
  From one rupee on, an event or a ratio at least 6.1% away from every factor is enough (`RupeeGapIsClear`).
- The two candle pipelines give equal bars on curves of positive prices (`PipelinesAgree`). With unusable points
  they agree on all but the volume (`PipelinesAgreeButVolume`), and on the total volume exactly if the unusable
  points between the first and the last usable one carried as much as the first usable one's own increment
  (`VolumesDifferBySkipped`).
- `build` with `limit` 0 returns every candle rather than none, since `order[-0:]` is the whole list
  (`LimitKeepsLast`).

## Model

| member | source | states |
|---|---|---|
| `Rounding.Round2OfMaxMin` | src/engine/live_candles.py:217-218 | rounding to two decimals commutes with maximum and minimum, so bars may be rounded before or after merging |
| `Rounding.RoundsToNearest` | src/engine/live_candles.py:217-218 | served prices are whole paise, adjusted ones whole hundredths of a paisa, each the nearest, ties to the even one |
| `Bars.GroupMeaning` | src/engine/live_candles.py:187-207 | for a stream in any order, bucketing yields exactly the occurring slots, each once, in order of first appearance, each holding the merge of all its bars in stream order |
| `Bars.MergeAllMeaning` | src/engine/live_candles.py:195-205 | a merged bar has the first open, greatest high, least low, last close and summed volume |
| `Bars.RollUp` | src/db/queries.py:95-108 | rolling grouped bars up through any slot map equals grouping the original stream by that map |
| `Bars.RoundedRollUp` | src/engine/intraday_store.py:126-131 | rounding fine bars before the roll-up and coarse bars after it equals rounding once at the end |
| `Bars.GroupKeepsVolume` | src/engine/live_candles.py:204-205 | grouping and rounding neither make nor lose volume |
| `Bars.OnlyOfGroup` | src/db/queries.py:104-105 | selecting whole slots before or after grouping is the same |
| `LiveCandles.LiveCandleEngine.Record` | src/engine/live_candles.py:72-106 | one call takes the key's lane to its step (invalid price ignored, fresh owner protects the key, ring trimmed) and leaves every other key alone |
| `LiveCandles.LiveCandleEngine.Build` | src/engine/live_candles.py:175-221 | the candles are those of the grouping of the key's ring, rounded, limited and time-stamped |
| `LiveCandles.Bucketize` | src/engine/live_candles.py:187-207 | the one-pass dictionary and key list hold exactly the grouping of the tagged samples |
| `LiveCandles.EmitCandles` | src/engine/live_candles.py:209-221 | the output pass returns the last `limit` groups, rounded and stamped with their start |
| `LiveCandles.RingIsTailOfAccepted` | src/engine/live_candles.py:54 | after any run the ring is the last `maxlen` of everything accepted |
| `LiveCandleLaws.CandlesMeaning` | src/engine/live_candles.py:175-221 | on time-ordered samples each candle summarises exactly the samples of its half-open, grid-aligned window, windows are disjoint and ascending, and every sample is covered |
| `LiveCandleLaws.CandlesWellShaped` | src/engine/live_candles.py:214-220 | after rounding, and for samples in any order, low <= open, close <= high and volume >= 0 |
| `LiveCandleLaws.LimitKeepsLast` | src/engine/live_candles.py:211 | what each limit (positive, zero, negative) keeps of the unlimited result |
| `LiveCandleLaws.VolumeConserved` | src/engine/live_candles.py:189-207 | total candle volume is the sum of the same-source deltas and the same for every width |
| `LiveCandleLaws.VolumeTelescopes` | src/engine/live_candles.py:204-205 | on a single-source non-decreasing series that sum is last minus first |
| `LiveCandleLaws.VolumeOfJoin` | src/engine/live_candles.py:201-207 | volume between two stretches of samples counts only within one source and if the total does not fall; a source change or reset adds nothing |
| `LiveCandleLaws.ReadingIsTaken` | src/engine/live_candles.py:72-106 | which readings are taken, what is kept of one, and when the owner changes |
| `LiveCandleLaws.SourceNonInterference` | src/engine/live_candles.py:97-106 | interleaved foreign readings leave accepted samples unchanged if and only if each comes within the TTL of the owner's latest one; then the whole lane is unchanged |
| `LiveCandleLaws.SteadyOwnerAlone` | src/engine/live_candles.py:43-45 | an owner speaking at most a TTL apart gets the same candles of every width with or without other sources |
| `LiveCandleLaws.TakeoverNeedsSilence` | src/engine/live_candles.py:99-105 | in every run, successive accepted sourced samples of different sources are more than the TTL apart |
| `IntradayBuilder.SortIsStable` | src/engine/tickertape.py:190 | the sort orders by time, keeps every point and keeps equal times in input order |
| `IntradayBuilder.FetchIntradayPoints` | src/engine/tickertape.py:190-198 | running totals become per-interval increments, never negative, in time order |
| `IntradayBuilder.PointsToOhlc` | src/engine/intraday_builder.py:33-66 | the bars are those of the grouping of the usable points by bucket start |
| `IntradayBuilder.PipelinesAgree` | src/engine/intraday_builder.py:33-66 | on positive-price curves, increments plus `points_to_ohlc` give exactly the candles of recording the same curve and `build` |
| `IntradayBuilder.PipelinesAgreeButVolume` | src/engine/intraday_builder.py:33-66 | on every curve, unusable prices included, both pipelines give the same candles up to their volumes |
| `IntradayBuilder.VolumesDifferBySkipped` | src/engine/intraday_builder.py:41-52 | on curves of non-decreasing totals the volumes differ by the first usable increment less the unusable ones in between, so they agree if and only if those are equal |
| `IntradayBuilder.UnusablePointSplitsPipelines` | src/engine/intraday_builder.py:44-45 | a three-point curve on which one pipeline counts 5 and the other none |
| `IntradayStore.Store.FlushLiveToStore` | src/engine/intraday_store.py:56-98 | a connected, committing flush upserts the planned rows and moves the mark; otherwise nothing changes; other keys never change |
| `IntradayStore.PlanFlush` | src/engine/intraday_store.py:64-87 | the rows are the 1-second bars at or after the high-water mark, and the new mark is the last bar |
| `IntradayStore.FirstFlushRows` | src/engine/intraday_store.py:64-87 | a first flush writes every 1-second bar of the ring, at most the last 100000 |
| `IntradayStore.NothingFreshNoFlush` | src/engine/intraday_store.py:76-90 | a flush writes exactly the bars at or after the mark, and does nothing if there are none |
| `IntradayStore.UpsertMeaning` | src/db/queries.py:83-89 | after upserting distinct keys each row's key holds that row and every other key is as before |
| `FlushRuns.BarsBelowMarkFinal` | src/engine/intraday_store.py:68-72 | no later sample changes a bar of the full table strictly below the last second of what came before |
| `FlushRuns.StoredRowsBelowMarkFinal` | src/engine/intraday_store.py:64-98 | however a run goes on, the stored rows strictly below the high-water mark never change |
| `FlushRuns.FlushIsFull` | src/engine/intraday_store.py:64-98 | a flush from a ring reaching back to the mark leaves the table of a full rebuild and the mark of all samples |
| `FlushRuns.FlushIsFullIff` | src/engine/intraday_store.py:64-98 | incremental equals full if and only if the ring reaches back before the mark or the forgotten samples would have changed no bar; never the latter with volume on the oldest ring sample |
| `FlushRuns.IncrementalEqualsFull` | src/engine/intraday_store.py:56-98 | in every run of `record` calls, flushes, commits and failures the table is at every moment the 1-second build of all samples seen by the last successful flush |
| `RollUpRead.RollUpIsDirect` | src/db/queries.py:95-108 | for every width and window the rolled-up stored bars equal direct bucketing of the window's samples |
| `RollUpRead.DaysAlignedIff` | src/engine/intraday_store.py:50-53 | every Indian day starts on a bucket boundary if and only if the width divides 1800 |
| `RollUpRead.PastReadIsLiveIff` | src/engine/intraday_store.py:101-132 | for every requested width, past days read as the live engine's own candles of that width, for all histories and days, if and only if it is a whole number of seconds dividing 1800 |
| `RollUpRead.OfferedWidths` | src/api/endpoints/superbrain.py:96-103 | of the offered sub-minute widths all fit but 250 ms and 500 ms, which are read as 1 second |
| `RollUpRead.CapturedIff` | src/engine/intraday_store.py:117-119 | a past day reads as captured, at any width, if and only if some sample fell on that Indian date |
| `RollUpRead.ReadIsOfItsDate` | src/engine/intraday_store.py:50-53 | a day's candles are those of exactly the samples whose UTC second plus 5 h 30 min lies in that date |
| `RollUpRead.SessionReadOnItsDay` | src/engine/intraday_store.py:50-53 | every sample from 03:45 to 10:00 UTC of a date is read on that day, a lone one on no other |
| `RollUpRead.PastDayIsLive` | src/engine/intraday_store.py:101-132 | end to end: after any run, a day reads as not captured or as the live candles of all flushed samples at the requested width rounded to whole seconds, if that divides 1800 |
| `CircuitBreakers.CircuitBreaker.State` | src/engine/circuit_breaker.py:53-61 | reading the state makes the open-to-half-open transition |
| `CircuitBreakers.CircuitBreaker.RecordSuccess` | src/engine/circuit_breaker.py:71-83 | the whole new state after a success |
| `CircuitBreakers.CircuitBreaker.RecordFailure` | src/engine/circuit_breaker.py:85-105 | the whole new state after a failure |
| `CircuitBreakers.CircuitBreaker.Execute` | src/engine/circuit_breaker.py:117-134 | a call is refused exactly when the breaker cannot execute, and otherwise counted and recorded |
| `BreakerRuns.ScoreIsWorstSuffix` | src/engine/circuit_breaker.py:81-88 | the running failure count is the greatest excess of failures over successes among all suffixes |
| `BreakerRuns.ReachableIsGood` | src/engine/circuit_breaker.py:53-134 | invariant of every interleaving: half-open calls are exactly the won, unfinished and cancelled calls of the episode; CLOSED means count < threshold, otherwise count >= threshold |
| `BreakerRuns.ExecutedIsRun` | src/engine/circuit_breaker.py:117-134 | one undisturbed `execute` is a start and an end of the state machine, or a refused start |
| `BreakerRuns.ResetIsFresh` | src/engine/circuit_breaker.py:136-141 | a manual reset leaves the breaker as new but for its latest failure time |
| `BreakerRuns.AdmitsIff` | src/engine/circuit_breaker.py:107-126 | in every reachable state, the exact condition under which the next call is admitted |
| `BreakerRuns.HalfOpenAdmitsWhenIdle` | src/engine/circuit_breaker.py:107-126 | without cancellations a half-open breaker with none of its episode's calls in flight admits the next call |
| `BreakerRuns.WedgedIff` | src/engine/circuit_breaker.py:107-134 | half-open and idle, no call is admitted if and only if won plus cancelled trials of the episode number half_open_max_calls, at least one of them cancelled |
| `BreakerRuns.WedgeIsForever` | src/engine/circuit_breaker.py:107-134 | once wedged it refuses every call until a manual reset or an external failure |
| `BreakerRuns.CancelledTrialsWedge` | src/engine/circuit_breaker.py:128-134 | for every configuration and every number of cancelled trials from one to all there is a run that wedges the breaker with just that many |
| `BreakerRuns.ClosesAtFullCredit` | src/engine/circuit_breaker.py:71-80 | in every run, a half-open breaker closes if and only if this success is the half_open_max_calls-th recorded while half-open since the last closing or reset |
| `BreakerRuns.ClosingEpisode` | src/engine/circuit_breaker.py:71-94 | the closing episode holds half_open_max_calls successes less the count it opened with, so fewer if and only if that was not zero |
| `BreakerRuns.SuccessesOutliveTheirEpisode` | src/engine/circuit_breaker.py:91-94 | for every configuration and every possible carry-over there is a run whose last episode closes that many successes early |
| `BreakerRuns.LateSuccessesClose` | src/engine/circuit_breaker.py:71-80 | for every configuration some run closes the breaker on late successes, without admitting a single trial |
| `BreakerRuns.OpensExactlyAtThreshold` | src/engine/circuit_breaker.py:81-97 | a closed breaker opens exactly at a failure after which some suffix's excess reaches the threshold |
| `BreakerRuns.NoAdmissionDuringCooldown` | src/engine/circuit_breaker.py:53-61 | an open breaker admits nothing until more than the recovery timeout after its latest failure |
| `Failover.PlaceKeepsOrder` | src/engine/failover.py:46-50 | registering keeps the list sorted by (priority, name) and adds exactly the new provider |
| `Failover.TextLeqTotalOrder` | src/engine/failover.py:49 | the name order used as tie-break is a total order |
| `Failover.TextLeqMeaning` | src/engine/failover.py:49 | names compare as in a dictionary: a prefix first, or the first differing letter decides |
| `Failover.BeforeMeaning` | src/engine/failover.py:49 | smallest priority first, then by name; without a priority ten times the tier stands in |
| `Failover.SourceMatchMeaning` | src/engine/failover.py:26-35 | a source matches whole names, the nse and bse families by prefix and yahoo anywhere, all in any letter case |
| `Failover.FailoverController.RegisterProvider` | src/engine/failover.py:46-52 | sorted list, fresh breaker for the name, enabled unless already known |
| `Failover.FailoverController.SetEnabled` | src/engine/failover.py:55-62 | exactly the matching providers get the flag, and the result says whether any matched |
| `Failover.SwitchMeaning` | src/engine/failover.py:55-62 | the flag is set for exactly the providers whose name or source group is meant, everything else stays |
| `Failover.FailoverController.FetchQuote` | src/engine/failover.py:67-136 | the loop over breaker objects leaves all breakers and the result as the cascade on values does |
| `Failover.TurnFacts` | src/engine/failover.py:101-121 | a skipped provider's breaker is unchanged, and once it agreed the call in the same turn is never refused |
| `FailoverLaws.CascadeMeaning` | src/engine/failover.py:87-132 | first provider able at its turn serves, each earlier one leaves none, one, or for an unexpected error two failures more, no other breaker changes; names may repeat |
| `FailoverLaws.AllowedIffEligible` | src/engine/failover.py:87-99 | the cascade's filters let through exactly the enabled providers that meet the venue, source and delay a call asks for |
| `FailoverLaws.TurnIsRun` | src/engine/failover.py:105-132 | what a turn does to a breaker is a run of its state machine: a look, then a failed connect, or a call that starts and ends, an unexpected error told twice |
| `FailoverLaws.CascadeServesFirst` | src/engine/failover.py:87-136 | the tick is that of the first provider in priority order that the call allows, its breaker at its turn admits, is reachable and has a tick; raises if and only if there is none; with distinct names the breakers are those the call started with |
| `FailoverLaws.NamesakeSpoilsTurn` | src/engine/failover.py:46-52 | a name registered twice: the first entry's failure opens the shared breaker, and the call raises though the second was admissible at the start |
| `FailoverLaws.CascadeRespectsFilters` | src/engine/failover.py:90-99 | the provider that answers is enabled, matches a forced source, is not delayed when an unforced call excludes delayed feeds, and is on the venue a call is pinned to |
| `FailoverLaws.RunIsItsTurns` | src/engine/failover.py:87-132 | in a run of cascades a breaker goes through exactly the turns given to the entries of its name and is otherwise untouched |
| `FailoverLaws.DeadProviderLoadInRun` | src/engine/failover.py:67-136 | in any run of fetch_quote calls a provider, listed once or more, that is down for a stretch T is connected to or called at most threshold + floor(T / timeout) times |
| `FailoverLaws.DeadProviderLoadAnywhere` | src/engine/failover.py:87-132 | the same bound when the breaker starts from any history of concurrent calls |
| `RateLimiter.TokenBucketRateLimiter.AcquireAlone` | src/engine/rate_limiter.py:37-47 | a lone caller gets its token after at most one sleep, and the bucket ends as one or two attempts leave it |
| `RateLimiter.OneSleepSuffices` | src/engine/rate_limiter.py:46-55 | a refused attempt succeeds once per/rate has passed |
| `RateLimiter.WindowBound` | src/engine/rate_limiter.py:37-55 | in every run, grants in any stretch are at most rate + length * rate/per, and tokens stay within [0, rate] |
| `RateLimiter.BurstAfterIdle` | src/engine/rate_limiter.py:37-55 | a burst is granted exactly as far as the tokens earned go; after `per` idle seconds `rate` calls at once |
| `CorpActions.DetectSplitEvents` | src/engine/corp_actions.py:38-60 | the loop finds exactly the bars with a confirmed split factor |
| `CorpActions.AdjustForSplits` | src/engine/corp_actions.py:63-87 | the nested in-place loops give each bar its adjustment under all later events |
| `CorpActionLaws.NearestFactorIff` | src/engine/corp_actions.py:28-35 | a ratio matches a factor exactly when it lies within 6% of it, so the table order never decides |
| `CorpActionLaws.DetectFindsAll` | src/engine/corp_actions.py:38-60 | an event is listed exactly where the earlier close is within 6% of a usual factor times the later open (or close, without one) and the volumes do not refuse |
| `CorpActionLaws.CloseStandsInForOpen` | src/engine/corp_actions.py:43 | a bar's close plays no part in its gap when its open is present and not zero, and is the open otherwise |
| `CorpActionLaws.AdjustedScalesByProduct` | src/engine/corp_actions.py:78-86 | exactly, each bar is scaled by the product of the factors of all events after it |
| `CorpActionLaws.TurnoverConserved` | src/engine/corp_actions.py:82-86 | price times volume is conserved per bar, for each of the five prices |
| `CorpActionLaws.ExactAdjustmentIdempotent` | src/engine/corp_actions.py:63-87 | in exact arithmetic detection on the adjusted bars finds nothing and adjusting again changes nothing |
| `CorpActionLaws.ClearGapIsSettled` | src/engine/corp_actions.py:63-87 | gap by gap: where no event touches the gap, or every factor is out of reach of rounding by price or refused by volume, the rounded result shows no event |
| `CorpActionLaws.RupeeGapIsClear` | src/engine/corp_actions.py:28-60 | from one rupee on today's scale a gap is clear if it is an event or its price ratio is at least 6.1% away from every factor |
| `CorpActionLaws.RoundedAdjustmentSettles` | src/engine/corp_actions.py:63-87 | with rounding the same holds for every series all of whose gaps are clear |
| `CorpActionLaws.RoundedMayNotSettle` | src/engine/corp_actions.py:84 | three bars on which rounded prices show a new split |
| `CorpActionLaws.TruncationMayNotSettle` | src/engine/corp_actions.py:85-86 | three bars at ordinary prices on which a truncated volume confirms a split it had refused |
| `CorpActionLaws.RoundingBound` | src/engine/corp_actions.py:82-84 | however many events, each rounded price is within 0.0001 of the exact one |
| `CorpActionLaws.OneEventMeaning` | src/engine/corp_actions.py:80-86 | one event divides and rounds to four decimals every price present, multiplies and truncates the volume, and leaves later bars |
| `CorpActionLaws.ShortSeriesUntouched` | src/engine/corp_actions.py:70-71 | fewer than three bars are returned as they are |
| `CorpActionLaws.VolumeDrift` | src/engine/corp_actions.py:85-86 | however many events, a truncated volume falls short of the exact one by at most the product of the factors less one |
| `CorpActionLaws.VolumeBound` | src/engine/corp_actions.py:85-86 | truncated volumes never exceed the exact ones and equal them for whole volumes and whole later factors |
| `TtlCache.TTLCache.Get` | src/api/endpoints/superbrain.py:140-146 | hit only while fresh; an expired entry is dropped |
| `TtlCache.TTLCache.Put` | src/api/endpoints/superbrain.py:148-155 | byte count stays exact, and afterwards the bytes fit the budget or one entry is left |
| `TtlCache.TTLCache.Clear` | src/api/endpoints/superbrain.py:166-170 | empties the cache, resets the byte count and returns the number of entries |
| `TtlCacheLaws.HitIsLatestPut` | src/api/endpoints/superbrain.py:140-170 | under any clock a hit is the latest put of that key, not cleared since, younger than the TTL |
| `TtlCacheLaws.GetDropsExpired` | src/api/endpoints/superbrain.py:140-146 | in every run a get serves the entry if younger than the TTL, drops it otherwise, and touches no other |
| `TtlCacheLaws.PutEvictsShortestPrefix` | src/api/endpoints/superbrain.py:151-155 | with a clock that does not go back a put evicts exactly the shortest oldest-first prefix needed and never the new entry |
| `TtlCacheLaws.RecentPutIsServed` | src/api/endpoints/superbrain.py:140-155 | a fresh latest put whose following puts, itself included, fit the budget is always served |
| `TtlCacheLaws.BytesWeighTheRows` | src/api/endpoints/superbrain.py:132-138 | in every run the bytes accounted for are 450 per row and 64 per list, or 512, of what is held |
| `SingleFlight.LiveQuotes.LiveQuote` | src/api/endpoints/superbrain.py:418-433 | a request gets the fresh cached tick, the task in flight, or starts one |
| `SingleFlight.LiveQuotes.FinishFetch` | src/api/endpoints/superbrain.py:402-415 | a finished fetch publishes its tick, if any |
| `SingleFlight.ReachableIsGood` | src/api/endpoints/superbrain.py:397-433 | invariant of every reachable state: exactly the unsettled tasks are in flight, each under its own key, and none runs while the cache is fresh |
| `SingleFlight.AtMostOneFetchPerKey` | src/api/endpoints/superbrain.py:428-432 | two unfinished fetches of one key are the same fetch |
| `SingleFlight.CallbackRemovesOwnEntry` | src/api/endpoints/superbrain.py:432 | a done-callback removes exactly its own task's entry |
| `SingleFlight.ArrivalsShareTheFetch` | src/api/endpoints/superbrain.py:425-433 | every request arriving while a fetch of its key runs awaits that fetch |
| `SingleFlight.OneResultPerFetch` | src/api/endpoints/superbrain.py:397-433 | once a fetch has ended its result stands however the run goes on, so all who await it get the same |
| `SingleFlight.FetchesAreSpaced` | src/api/endpoints/superbrain.py:425-432 | after a fetch yielded a tick no fetch of that key starts for a whole TTL |
| `SingleFlight.HitIsLastTick` | src/api/endpoints/superbrain.py:414-426 | in every run a request is a hit if and only if a fetch of its key yielded less than a TTL ago, and then with the last such tick |
| `Calendar.GetNextTradingDay` | src/config/holidays.py:131-136 | the loop ends on the result of the forward search |
| `Calendar.GetPreviousTradingDay` | src/config/holidays.py:139-144 | the loop ends on the result of the backward search |
| `Calendar.TradingDaySearch` | src/config/holidays.py:126-144 | for any finite holiday table both searches end on the nearest trading day, and undo each other exactly on trading days |
| `Calendar.NextOpenIsLeast` | src/utils/ist_clock.py:116-129 | the next open is the least 09:15 of a trading day strictly after the moment, and continuous trading is off until then unless it is on already |
| `Calendar.SessionTimes` | src/utils/ist_clock.py:26-100 | every session's exact times, weekend before holiday, and the market counts as open from 09:00 to 15:40 of trading days |
| `Calendar.WeekdaysGoRound` | src/config/holidays.py:126-136 | weekdays go round from a Monday at day 1, and trading days are Monday to Friday without holidays |

## Left out

- Floating point: prices, times and totals are exact numbers, and ISO strings compared by the flush are the integer seconds they print.
- The database: the table is a map, an upsert commits as a whole or not at all, and retention pruning is not modelled.
- Overlapping flushes of one key, and the loss of the in-memory high-water mark at a restart: runs have one flush at a time.
- The flush's 100000-bar limit is kept as `FLUSH_LIMIT`; the run theorems take a ring no longer than that (the configured depth is 46000).
- `ClearGapIsSettled`: an equivalence only for gaps that no event touches, which are always quiet. For a gap at or before an event the condition is sufficient: prices and volumes are rounded after each event, so a gap within the drift of those roundings turns on their last digits; both ways it can go wrong are shown.
- `PipelinesAgree`: equal candles for positive prices only, since otherwise the volumes differ as `VolumesDifferBySkipped` says; that equivalence is for the total volume, not candle by candle.
- `FailoverController.FetchQuote`: one cascade at a time; calls interleaved with other users of the same breakers are covered by the breaker's own runs.
- `TokenBucketRateLimiter.AcquireAlone`: one caller; several callers are covered by the run theorem, which says nothing about fairness between them.
- `Failover.Lower`: lower-cases ASCII letters only.
- Task cancellation in the single-flight cache, which would cancel the shared fetch.
- Key normalisation to upper case, `_last_read`, idle stop and the recorder loops.
- `latest_tick`, `measured_cadence_s` and `status`: direct reads of the ring.
- `fetch_bulk`, health checks and `test_provider` of the controller.
- `get_next_market_open` for a time outside IST, whose date the code takes without conversion.
- Provider HTTP code, parsing, FastAPI routing, WebSocket streaming, Redis and the in-memory store.
