# A verified model of a trading-adviser backtester and optimizer

This project is a Dafny model of the strategy-evaluation engine of a Go
trading-adviser repository, together with proofs about that model.

The engine works in four stages:
- Rule-based **advisers** look at the hourly candle history around one
  instant. Each one either emits an advice, which is a take-profit price, a
  stop-loss price and an expiration, or gives a typed rejection reason.
- A **backtester** asks an adviser about every hour of a range. It settles
  each accepted advice against the candles that follow, and counts how often
  the adviser fires (frequency) and how often its order hits the take profit
  (accuracy).
- A **brute-force modifier** walks every point of a discretized parameter
  hyper-rectangle.
- An **optimizer** backtests each point the modifier produces and keeps the
  best one: higher accuracy wins, and ties go to higher frequency.

Smaller pure pieces are modelled as well: the training-set row builder and
its min-max normalizer, the CSV layout of stored advices, and the request
builders of the Alpha Vantage and Tiingo loaders.

Modelling conventions:
- Fixed-point decimals are `real`.
- Timestamps are integer Unix seconds.
- Collections are `seq`s and `map`s.
- A Go panic the code can reach is an explicit outcome rather than a
  precondition. Such panics include an index out of range, `make` with a
  negative length, a division by zero, a modulo by zero and the `panic(err)`
  calls of `TestParams`. They appear as `Result.Panic`,
  `Evaluation.Panicked`, `Conversion.Panicked`, `None` or the `panicked`
  flag of a `ParamsTester.Run`. A panic inside one of the optimizer's
  goroutines ends the whole process, so `OptimizerApp.OptimizeParams` and
  `OptimizerApp.OptimizeParamsCorrected` are `Panic` whenever a visited
  point's backtest panicked. The exceptions are listed under "Left out":
  the two modifiers' `Modify` and the parameter setters require a vector
  they can work on.
- Whatever the core receives from outside becomes a function parameter:
  - the candle repository (`RangeQuery`, `CountQuery`);
  - `CalculateVolatility` (`Volatility`);
  - the inner `GetAdvices` of the scaled adviser and the tester;
  - the clock reading;
  - the iteration order of a Go map;
  - the time zone a candle's timestamp is read in (`Zone`, the offset from
    UTC at each instant). The program builds its candles with `time.Unix`,
    so this is the process's Local zone, which the `TZ` environment sets;
  - decimal rendering and parsing;
  - time parsing;
  - the per-point backtest the optimizer runs (`OptimizerStats.Tester`):
    for each point, a `ParamsTester.Run` holding the batches all quotes'
    tests deliver, in arrival order, and whether any of those tests
    panicked.

Each Go file of the core has its own module:
- `Candlestick` (candle and interval);
- `Calc` (the calculator);
- `CandleFilter`, `GreedyGetter` and `CacheRepository` (window queries);
- seven parameter-vector modules;
- `GridRank`, `GridSearch`, `BruteForceModifier`, `BruteForceCompleteness`,
  `BruteForceCycle` and `BruteForceAsWritten` (the params-package modifier
  and its proofs);
- `SignalModifier` (the older modifier);
- `AdviceBase`, `CBSAdviser`, `LegacyCBSAdviser`, `FTAdviser`,
  `SplitSearch`, `CBSRAdviser` and `CBSScaledAdviser` (the advisers);
- `Selector`;
- `ParamsTester`, `TesterApp`, `OptimizerLoop` (the modifier loop), `OptimizerStats`
  (a point's figures and the choice of the best) and `OptimizerApp` (the drivers);
- `DatasetBuilder`, `Normalizer`, `AdviceRecords`, `Strconv`,
  `AlphaVantage` and `Tiingo`.

`Common` holds the shared `Option`/`Result` types, `Filter`, and Go's
truncating integer division and `IntPart`.

The signal-package modifier has its own `reset`, `getRate` and
`GetCurrentStep`, but they are identical to the params-package ones. So the
model shares `GridSearch.Reset`, `GridSearch.Rate` and
`GridSearch.CurrentStep` between the two modifiers. The modifier's record
keeps its construction-time fields (the rate and the two bound vectors) in a
`GridSearch.Space` value, apart from the cursor fields that every call
updates.

The source paths in the table below are relative to the root of the Go
repository.

## Model

| member | source | states |
|---|---|---|
| Candlestick.HourOfDay | adviser/domain/candlestick/filter.go:35-36 | the hour `Timestamp.Hour()` reads: the hour in 0..23 within which the local time of day lies, in the zone of the timestamp |
| Candlestick.HourOfDayShift | adviser/domain/candlestick/filter.go:35-36 | in a zone whose offset is o whole hours, that hour is the UTC hour plus o modulo 24 |
| Candlestick.Minutes | adviser/domain/candlestick/candlestick.go:30-43 | positive exactly for the four known intervals, 0 for every other interval |
| Candlestick.IntervalOfMinutes | adviser/domain/candlestick/candlestick.go:30-43 | the inverse of Minutes: the only known interval of a given length, if any |
| Candlestick.MinutesOrdered | adviser/domain/candlestick/candlestick.go:11-16 | minute < hour < day < month, nesting as 60, 24 and 30 |
| Calc.Volume | adviser/domain/candlestick/calc.go:46-53 | 0 on an empty window, the candle's volume on a single one |
| Calc.VolumeAppend | adviser/domain/candlestick/calc.go:46-53 | the volume of two windows put together is the sum of their volumes |
| Calc.SMA | adviser/domain/candlestick/calc.go:107-119 | 0 on an empty window; otherwise average times count equals the sum of the closes |
| Calc.SMABetweenCloses | adviser/domain/candlestick/calc.go:107-119 | the average of a non-empty window lies between its lowest and its highest close |
| Calc.Height | adviser/domain/candlestick/calc.go:121-134 | 0 on an empty window, otherwise a High of the window that no High exceeds |
| Calc.Depth | adviser/domain/candlestick/calc.go:136-149 | 0 on an empty window, otherwise a Low of the window below no other Low |
| Calc.MaxChange | adviser/domain/candlestick/calc.go:42-44 | the largest High minus Low over all candle pairs, attained by some pair; non-negative when every candle has Low <= High |
| Calc.RisingWindowStart | adviser/domain/candlestick/calc.go:151-164 | the inspected window is the last max(1, countLast) candles and is never empty on a non-empty series |
| Calc.IsRising | adviser/domain/candlestick/calc.go:151-164 | true exactly when no candle of that window closes against the direction; always true for direction 0 or no candles |
| Calc.TradeDirection | adviser/domain/candlestick/calc.go:65-70 | 1 exactly when the price is below take-profit, -1 exactly when above, 0 exactly when equal |
| Calc.Trigger | adviser/domain/candlestick/calc.go:72-84 | for each direction, when a candle stops the order out, takes the profit or neither; the stop-loss test wins |
| Calc.FirstTrigger | adviser/domain/candlestick/calc.go:72-85 | the first candle of the period that closes the order: none before it triggers, it does |
| Calc.OrderResult | adviser/domain/candlestick/calc.go:55-88 | never "none"; expired with the clock reading on an empty period; expired exactly when no candle triggers, closed at the last candle; otherwise the first trigger's result and time |
| CandleFilter.GetCandlesticks | adviser/domain/candlestick/filter.go:23-44 | errors pass through; the answer keeps, in order, exactly the candles with a non-zero close and, for hourly candles, an hour in 1..21 read in the timestamps' zone, each as many times as the fetch holds it |
| CandleFilter.FilterIdempotentQuery | adviser/domain/candlestick/filter.go:23-44 | filtering an already filtered repository gives the same answer |
| GreedyGetter.QuerySpan | adviser/domain/candlestick/greedy_getter.go:46-53 | forward fetches count*10 hours after start, backward count*10 hours before, any other direction the single instant; the window has start at one end, holds it for a non-negative count, and is count*10 hours long forward and backward |
| GreedyGetter.GetCandlesticksByCount | adviser/domain/candlestick/greedy_getter.go:38-72 | the range query is asked for the QuerySpan window and its errors and panics pass through; a fetch no longer than count is returned whole; on a successful fetch the answer succeeds exactly for a non-negative count and a negative count panics; an answer holds min(count, fetched) candles, the first ones forward, the last ones backward, and zero candles for any other direction |
| GreedyGetter.Take | adviser/domain/candlestick/greedy_getter.go:56-71 | errors pass through; a short fetch is returned whole; a negative count panics; otherwise min(count, fetched) candles, the first ones forward, the last ones backward, and zero candles for any other direction |
| GreedyGetter.CountQueryTakesFromFetch | adviser/domain/candlestick/greedy_getter.go:59-71 | a successful forward or backward answer is a subsequence of the fetched candles |
| CacheRepository.GetCandlesticks | adviser/infrastructure/candlestick_cache_repository.go:66-85 | never fails; empty for an unknown symbol or interval; exactly the cached candles inside [from, to], in cache order, each as many times as the cache holds it |
| CacheRepository.RangeMonotone | adviser/infrastructure/candlestick_cache_repository.go:77-82 | widening the range never loses a candle |
| CacheRepository.GetCandlesticksByCount | adviser/infrastructure/candlestick_cache_repository.go:87-96 | never an error; succeeds exactly for a non-negative count; at most count candles, inside the fetched window |
| AdviceCBSParams.GetParams | adviser/domain/advice/cbs_params.go:19-33 | a vector of 11 entries whose integer slots (0, 3 and 9) hold integral decimals |
| AdviceCBSParams.SetParams | adviser/domain/advice/cbs_params.go:35-47 | reading the struct back gives every decimal slot verbatim and every integer slot truncated toward zero; the first 11 entries exactly when those slots are integral |
| AdviceCBSParams.SetGetRoundTrip | adviser/domain/advice/cbs_params.go:19-47 | setting a struct's own vector reproduces the struct |
| AdviceCBSParams.SetIgnoresExtra | adviser/domain/advice/cbs_params.go:35-47 | entries past the first 11 never affect the struct |
| AdviceCBSScaledParams.GetParams | adviser/domain/advice/cbs_scaled_params.go:21-37 | a vector of 13 entries whose integer slots (0 and 1) hold integral decimals |
| AdviceCBSScaledParams.SetParams | adviser/domain/advice/cbs_scaled_params.go:39-53 | reading the struct back gives every decimal slot verbatim and every integer slot truncated toward zero; the first 13 entries exactly when those slots are integral |
| AdviceCBSScaledParams.SetGetRoundTrip | adviser/domain/advice/cbs_scaled_params.go:21-53 | setting a struct's own vector reproduces the struct |
| AdviceCBSScaledParams.SetIgnoresExtra | adviser/domain/advice/cbs_scaled_params.go:39-53 | entries past the first 13 never affect the struct |
| AdviceFTParams.GetParams | adviser/domain/advice/ft_params.go:18-29 | a vector of 8 entries whose integer slots (0 and 6) hold integral decimals |
| AdviceFTParams.SetParams | adviser/domain/advice/ft_params.go:31-40 | reading the struct back gives every decimal slot verbatim and every integer slot truncated toward zero; the first 8 entries exactly when those slots are integral |
| AdviceFTParams.SetGetRoundTrip | adviser/domain/advice/ft_params.go:18-40 | setting a struct's own vector reproduces the struct |
| AdviceFTParams.SetIgnoresExtra | adviser/domain/advice/ft_params.go:31-40 | entries past the first 8 never affect the struct |
| ParamsCBS.GetParams | adviser/domain/params/cbs.go:19-33 | a vector of 11 entries whose integer slots (0, 3 and 9) hold integral decimals |
| ParamsCBS.SetParams | adviser/domain/params/cbs.go:35-47 | reading the struct back gives every decimal slot verbatim and every integer slot truncated toward zero; the first 11 entries exactly when those slots are integral |
| ParamsCBS.SetGetRoundTrip | adviser/domain/params/cbs.go:19-47 | setting a struct's own vector reproduces the struct |
| ParamsCBS.SetIgnoresExtra | adviser/domain/params/cbs.go:35-47 | entries past the first 11 never affect the struct |
| ParamsCBSR.GetParams | adviser/domain/params/cbsr.go:21-37 | a vector of 13 entries whose integer slots (0 and 1) hold integral decimals |
| ParamsCBSR.SetParams | adviser/domain/params/cbsr.go:39-53 | reading the struct back gives every decimal slot verbatim and every integer slot truncated toward zero; the first 13 entries exactly when those slots are integral |
| ParamsCBSR.SetGetRoundTrip | adviser/domain/params/cbsr.go:21-53 | setting a struct's own vector reproduces the struct |
| ParamsCBSR.SetIgnoresExtra | adviser/domain/params/cbsr.go:39-53 | entries past the first 13 never affect the struct |
| ParamsFT.GetParams | adviser/domain/params/ft.go:18-29 | a vector of 8 entries whose integer slots (0 and 6) hold integral decimals |
| ParamsFT.SetParams | adviser/domain/params/ft.go:31-40 | reading the struct back gives every decimal slot verbatim and every integer slot truncated toward zero; the first 8 entries exactly when those slots are integral |
| ParamsFT.SetGetRoundTrip | adviser/domain/params/ft.go:18-40 | setting a struct's own vector reproduces the struct |
| ParamsFT.SetIgnoresExtra | adviser/domain/params/ft.go:31-40 | entries past the first 8 never affect the struct |
| SignalCBSParams.GetParams | adviser/domain/signal/cbs.go:18-29 | a vector of 8 entries whose integer slots (0 and 3) hold integral decimals |
| SignalCBSParams.SetParams | adviser/domain/signal/cbs.go:31-40 | reading the struct back gives every decimal slot verbatim and every integer slot truncated toward zero; the first 8 entries exactly when those slots are integral |
| SignalCBSParams.SetGetRoundTrip | adviser/domain/signal/cbs.go:18-40 | setting a struct's own vector reproduces the struct |
| SignalCBSParams.SetIgnoresExtra | adviser/domain/signal/cbs.go:31-40 | entries past the first 8 never affect the struct |
| GridRank.RankBounds | adviser/domain/params/brute_force_modifier.go:65-74 | a digit vector inside its radices has a rank below the product of the radices, the number of grid points |
| GridRank.RankPrefix | adviser/domain/params/brute_force_modifier.go:51-53 | coordinates from position k on do not affect the rank of the first k |
| GridRank.RankZero | adviser/domain/params/brute_force_modifier.go:28-33 | the all-minimum point, where the search starts, has rank 0 |
| GridRank.RankAllMax | adviser/domain/params/brute_force_modifier.go:37-43 | the all-maximum point, where the search stops, has the largest rank |
| GridRank.RankSucc | adviser/domain/params/brute_force_modifier.go:51-53 | advancing one coordinate whose later coordinates are all at maximum, and resetting those, raises the rank by exactly one |
| GridRank.RankSuccFrom | adviser/domain/params/brute_force_modifier.go:51-53 | the same one-step rise for every partial rank past the advanced coordinate |
| GridRank.RankInjective | adviser/domain/params/brute_force_modifier.go:65-74 | distinct grid points have distinct ranks |
| GridSearch.NewModifier | adviser/domain/params/brute_force_modifier.go:16-25 | a fresh modifier is not started, at step 0 and coordinate 0, holding the given bounds and rate |
| GridSearch.Reset | adviser/domain/params/brute_force_modifier.go:76-80 | coordinates before the offset are kept and every later one is set to its minimum |
| GridSearch.Rate | adviser/domain/params/brute_force_modifier.go:82-84 | the step of the current coordinate is (max - min) * rate, positive on a varying coordinate with a positive rate |
| GridSearch.VaryingCount | adviser/domain/params/brute_force_modifier.go:66-71 | the number of coordinates with min != max, at most the dimension |
| GridSearch.Steps | adviser/domain/params/brute_force_modifier.go:73 | the ceiling of 1/rate, at least 1 |
| GridSearch.TotalSteps | adviser/domain/params/brute_force_modifier.go:65-74 | panics exactly for a zero rate; otherwise (ceil(1/rate) + 1) to the power of the number of varying coordinates |
| GridSearch.Radices | adviser/domain/params/brute_force_modifier.go:65-74 | each varying coordinate takes ceil(1/rate) + 1 values, each fixed one a single value |
| GridSearch.ProdRadices | adviser/domain/params/brute_force_modifier.go:65-74 | the number of grid points equals the total the modifier advertises |
| GridSearch.ReachIff | adviser/domain/params/brute_force_modifier.go:37 | d steps of (max - min) * rate reach the maximum exactly when d * rate >= 1 |
| GridSearch.StepsIff | adviser/domain/params/brute_force_modifier.go:73 | among 0..ceil(1/rate), only ceil(1/rate) itself has d * rate >= 1 |
| GridSearch.AtMaxIff | adviser/domain/params/brute_force_modifier.go:37 | a varying coordinate is at or past its maximum exactly at its last digit |
| GridSearch.AtMinIff | adviser/domain/params/brute_force_modifier.go:45-47 | a varying coordinate is at its minimum exactly at digit 0 |
| GridSearch.OnGridUnique | adviser/domain/params/brute_force_modifier.go:52 | a grid point has exactly one digit vector |
| GridSearch.OnGridPoint | adviser/domain/params/brute_force_modifier.go:52 | a digit vector names exactly one grid point |
| BruteForceModifier.ScanVarying | adviser/domain/params/brute_force_modifier.go:96-106 | the first varying coordinate at or after j, every coordinate skipped being fixed |
| BruteForceModifier.ScanVaryingBack | adviser/domain/params/brute_force_modifier.go:108-117 | the last varying coordinate at or before j, every coordinate skipped being fixed |
| BruteForceModifier.Current | adviser/domain/params/brute_force_modifier.go:86-94 | the first varying coordinate from cp on, or 0 when all of them are fixed |
| BruteForceModifier.Next | adviser/domain/params/brute_force_modifier.go:96-106 | the first varying coordinate after cp, or cp itself exactly when none follows |
| BruteForceModifier.Prev | adviser/domain/params/brute_force_modifier.go:108-117 | the last varying coordinate before cp, or 0 when none precedes it |
| BruteForceModifier.Backtrack | adviser/domain/params/brute_force_modifier.go:37-43 | stops at a coordinate below its maximum with every varying coordinate after it at maximum; exhausted when coordinate 0 is at maximum and so is every varying coordinate |
| BruteForceModifier.AdvanceAsWritten | adviser/domain/params/brute_force_modifier.go:45-49 | moves right only over varying coordinates at their minimum and stops before the first coordinate that is not one, fixed ones included |
| BruteForceModifier.AdvanceCorrected | adviser/domain/params/brute_force_modifier.go:45-49 | moves right over fixed coordinates and over varying ones at their minimum, ending on a varying coordinate |
| BruteForceModifier.StepAt | adviser/domain/params/brute_force_modifier.go:51-58 | advances coordinate p by its step, resets every later coordinate, counts the step and moves on to the next varying coordinate; fixed coordinates stay at minimum |
| BruteForceModifier.IncrementKeepsFixed | adviser/domain/params/brute_force_modifier.go:52-53 | a step never moves a fixed coordinate off its minimum |
| BruteForceModifier.Modify | adviser/domain/params/brute_force_modifier.go:27-59 | the first call yields the minimum point; an exhausted call leaves the point alone and un-starts the modifier; a successful call is a step at the backtracked coordinate |
| BruteForceCompleteness.GridDigits | adviser/domain/params/brute_force_modifier.go:37-47 | on a grid point a varying coordinate is at its maximum exactly at its last digit and at its minimum exactly at digit 0; a fixed coordinate holds its minimum |
| BruteForceCompleteness.SuccDigits | adviser/domain/params/brute_force_modifier.go:51-53 | the successor digits: earlier digits kept, digit p plus one, later digits zero |
| BruteForceCompleteness.OnGridSucc | adviser/domain/params/brute_force_modifier.go:51-53 | the point a step produces is the grid point of the successor digits |
| BruteForceCompleteness.RankOfSucc | adviser/domain/params/brute_force_modifier.go:51-53 | the successor digits have the next rank |
| BruteForceCompleteness.InvCpSucc | adviser/domain/params/brute_force_modifier.go:54-56 | after a step the current coordinate again satisfies the between-calls invariant |
| BruteForceCompleteness.StepAtSuccessor | adviser/domain/params/brute_force_modifier.go:51-58 | a step at a non-maximal varying coordinate with every later digit maximal reaches the next rank |
| BruteForceCompleteness.CurrentFacts | adviser/domain/params/brute_force_modifier.go:35 | the coordinate `current` picks is varying, with zero digits after it |
| BruteForceCompleteness.ExhaustedAtLast | adviser/domain/params/brute_force_modifier.go:37-43 | the backward loop reaches coordinate 0 at its maximum only at the last rank |
| BruteForceCompleteness.ChosenAfterCurrent | adviser/domain/params/brute_force_modifier.go:45-49 | the same when a varying coordinate follows the current one |
| BruteForceCompleteness.ChosenAtBacktrack | adviser/domain/params/brute_force_modifier.go:45-49 | the same when no varying coordinate follows the current one |
| BruteForceCompleteness.StepCorrected | adviser/domain/params/brute_force_modifier.go:27-59 | from the point of rank j, the corrected call answers true exactly when j is not the last rank, and then reaches rank j + 1: the backward loop finds nothing only at the last rank, and otherwise stops at a varying coordinate from which the forward loop steps to the successor |
| BruteForceCompleteness.NothingVaries | adviser/domain/params/brute_force_modifier.go:65-74 | with no varying coordinate the grid has one point |
| BruteForceCompleteness.CorrectedExhausted | adviser/domain/params/brute_force_modifier.go:37-43 | when the backward loop runs off coordinate 0 the call answers false |
| BruteForceCompleteness.CorrectedSteps | adviser/domain/params/brute_force_modifier.go:45-58 | otherwise the call is a step at the coordinate the forward loop chose |
| BruteForceCompleteness.GridSize | adviser/domain/params/brute_force_modifier.go:65-74 | a grid has at least one point |
| BruteForceCompleteness.MinimumOnGrid | adviser/domain/params/brute_force_modifier.go:28-33 | the minimum corner is the grid point with all digits zero |
| BruteForceCompleteness.NewModifierIdle | adviser/domain/params/brute_force_modifier.go:16-25 | a freshly built modifier is at the start of a cycle |
| BruteForceCompleteness.FirstCall | adviser/domain/params/brute_force_modifier.go:28-33 | the first call of a cycle answers true at the grid point of rank 0 |
| BruteForceCycle.Run | adviser/domain/params/brute_force_modifier.go:27-59 | the answers of k consecutive calls, the first being the answer of one call |
| BruteForceCycle.After | adviser/domain/params/brute_force_modifier.go:27-59 | the state after k consecutive calls keeps the bounds and rate |
| BruteForceCycle.Cycle | adviser/domain/params/brute_force_modifier.go:27-59 | n true answers followed by one false answer |
| BruteForceCycle.RunFromReach | adviser/domain/params/brute_force_modifier.go:27-59 | from the point of rank j the remaining size - j calls answer true until the last rank and then false |
| BruteForceCycle.TotalIsGridSize | adviser/domain/params/brute_force_modifier.go:65-74 | GetTotalSteps of a fresh modifier is the number of grid points |
| BruteForceCycle.CorrectedCycleLength | adviser/domain/params/brute_force_modifier.go:27-74 | a corrected cycle from an idle modifier answers true exactly GetTotalSteps times, then false |
| BruteForceCycle.RestOfCycle | adviser/domain/params/brute_force_modifier.go:27-59 | from the state the first call leaves, the next GetTotalSteps calls answer true GetTotalSteps - 1 times and then false |
| BruteForceCycle.ExhaustedIsIdle | adviser/domain/params/brute_force_modifier.go:38-41 | the call that ends a cycle leaves the modifier idle, so a new cycle of the same length follows |
| BruteForceCycle.LastFromReach | adviser/domain/params/brute_force_modifier.go:38-41 | the false answer comes at call size - j and leaves the modifier idle |
| BruteForceCycle.AfterFromReach | adviser/domain/params/brute_force_modifier.go:27-59 | the k-th call after rank j reaches rank j + k |
| BruteForceCycle.AfterIdle | adviser/domain/params/brute_force_modifier.go:51-63 | the k-th call of a cycle produces the grid point of rank k - 1, and GetCurrentStep reports k - 1 |
| BruteForceCycle.LaterCall | adviser/domain/params/brute_force_modifier.go:51-63 | the later calls of a cycle move through the ranks, counting steps |
| BruteForceCycle.CorrectedNoRepeats | adviser/domain/params/brute_force_modifier.go:27-59 | no point is produced twice in a corrected cycle |
| BruteForceCycle.CorrectedVisitsEveryPoint | adviser/domain/params/brute_force_modifier.go:27-59 | every grid point is produced by a corrected cycle, the one of rank k by call k + 1 |
| BruteForceCycle.SameRank | adviser/domain/params/brute_force_modifier.go:65-74 | digit vectors of equal rank are equal |
| BruteForceAsWritten.ContiguousIff | adviser/domain/params/brute_force_modifier.go:45-49 | no fixed coordinate between two varying ones, stated both ways |
| BruteForceAsWritten.LastVaryingBefore | adviser/domain/params/brute_force_modifier.go:45-49 | below a fixed coordinate that follows a varying one there is a last varying coordinate followed by a fixed one |
| BruteForceAsWritten.AdvanceAgree | adviser/domain/params/brute_force_modifier.go:45-49 | with contiguous varying coordinates the forward loop as written stops where the corrected one does |
| BruteForceAsWritten.ModifyAgree | adviser/domain/params/brute_force_modifier.go:27-59 | under contiguity a call as written equals a corrected call and keeps the conditions for the next one |
| BruteForceAsWritten.RunAgree | adviser/domain/params/brute_force_modifier.go:27-59 | under contiguity both versions answer alike over any number of calls |
| BruteForceAsWritten.AfterAgree | adviser/domain/params/brute_force_modifier.go:27-59 | under contiguity both versions reach the same state after any number of calls |
| BruteForceAsWritten.AsWrittenCycleContiguous | adviser/domain/params/brute_force_modifier.go:27-74 | with contiguous varying coordinates the code as written answers true GetTotalSteps times, then false |
| BruteForceAsWritten.AsWrittenVisitsContiguous | adviser/domain/params/brute_force_modifier.go:27-59 | with contiguous varying coordinates the code as written produces every grid point |
| BruteForceAsWritten.ExampleFirst | adviser/domain/params/brute_force_modifier.go:28-33 | bounds [0,0,0]..[1,0,1], rate 1: the first call yields [0,0,0] |
| BruteForceAsWritten.ExampleSecond | adviser/domain/params/brute_force_modifier.go:45-56 | the second call steps coordinate 0 and the current coordinate moves to 2 |
| BruteForceAsWritten.ExampleThird | adviser/domain/params/brute_force_modifier.go:45-56 | the third call steps coordinate 2, giving [1,0,1] |
| BruteForceAsWritten.ExampleFourth | adviser/domain/params/brute_force_modifier.go:37-43 | the fourth call finds both varying coordinates at maximum and answers false |
| BruteForceAsWritten.ExampleChain | adviser/domain/params/brute_force_modifier.go:27-59 | the four calls of the example cycle in order |
| BruteForceAsWritten.ExampleGrid | adviser/domain/params/brute_force_modifier.go:65-74 | the example grid has four points, [0,0,1] among them, and GetTotalSteps reports four |
| BruteForceAsWritten.CallThen | adviser/domain/params/brute_force_modifier.go:27-59 | k + 1 calls are one call followed by k calls |
| BruteForceAsWritten.ExamplePoints | adviser/domain/params/brute_force_modifier.go:27-59 | the points and answers of the first four calls of the example |
| BruteForceAsWritten.SkippedPointExample | adviser/domain/params/brute_force_modifier.go:45-49 | the code as written answers true only three times on a four-point grid and never produces [0,0,1] |
| SignalModifier.SignalBacktrack | adviser/domain/signal/modifier.go:42-48 | stops at the first coordinate below its maximum stepping left one at a time, fixed coordinates included; exhausted exactly when all coordinates up to cp are at maximum |
| SignalModifier.SignalStepAt | adviser/domain/signal/modifier.go:56-61 | advances coordinate p, resets the later ones, counts the step and moves one coordinate right unless at the last |
| SignalModifier.SignalModify | adviser/domain/signal/modifier.go:34-64 | the first call yields the minimum point; an exhausted call leaves the point and un-starts the modifier; otherwise a step |
| SignalModifier.SignalRun | adviser/domain/signal/modifier.go:34-64 | the answers of k consecutive calls |
| SignalModifier.SignalAfter | adviser/domain/signal/modifier.go:34-64 | the state after k consecutive calls keeps the bounds and rate |
| SignalModifier.SignalRestarts | adviser/domain/signal/modifier.go:35-46 | after a false answer the next call starts a new cycle at the minimum corner with step 0 |
| SignalModifier.BacktrackAgree | adviser/domain/signal/modifier.go:42-48 | with every coordinate varying the plain decrement is the params-package backward loop |
| SignalModifier.ModifyAgreeAllVarying | adviser/domain/signal/modifier.go:34-64 | with every coordinate varying a signal call is a corrected params-package call |
| SignalModifier.StepAgree | adviser/domain/signal/modifier.go:50-61 | with every coordinate varying both forward loops pick the same coordinate and both move one to the right |
| SignalModifier.RunAgreeAllVarying | adviser/domain/signal/modifier.go:34-64 | with every coordinate varying both modifiers answer alike over any number of calls |
| SignalModifier.AfterAgreeAllVarying | adviser/domain/signal/modifier.go:34-64 | with every coordinate varying both reach the same state after any number of calls |
| SignalModifier.TotalOfIdle | adviser/domain/signal/modifier.go:70-79 | GetTotalSteps of an idle modifier is the number of grid points |
| SignalModifier.SignalCycleLength | adviser/domain/signal/modifier.go:34-79 | with every coordinate varying a cycle answers true GetTotalSteps times, then false |
| SignalModifier.SignalVisitsEveryPoint | adviser/domain/signal/modifier.go:34-64 | with every coordinate varying every grid point is produced |
| SignalModifier.BlockedStep | adviser/domain/signal/modifier.go:42-54 | a fixed coordinate the current coordinate has not passed stays blocking after a call |
| SignalModifier.BlockedAdvance | adviser/domain/signal/modifier.go:50-54 | the forward loop cannot cross a fixed coordinate |
| SignalModifier.BlockedAfter | adviser/domain/signal/modifier.go:34-64 | the coordinates from a blocking fixed coordinate on never leave their minimum |
| SignalModifier.FixedFreezesRight | adviser/domain/signal/modifier.go:34-64 | from the start of a cycle a fixed coordinate keeps itself and all coordinates after it at minimum in every point produced |
| SignalModifier.FixedFirstStops | adviser/domain/signal/modifier.go:42-46 | with coordinate 0 fixed a cycle answers true once, at the minimum corner, then false |
| SignalModifier.FixedFirstUndercounts | adviser/domain/signal/modifier.go:70-79 | yet GetTotalSteps reports at least two points as soon as any coordinate varies |
| SignalModifier.GridAtLeastTwo | adviser/domain/signal/modifier.go:70-79 | a grid with a varying coordinate has at least two points |
| Selector.PrefixMin | adviser/domain/advice/selector.go:18-23 | the running minimum of the look-back periods: no advice seen has a shorter one, and some advice has it |
| Selector.StalePool | adviser/domain/advice/selector.go:18-27 | the pool the first loop builds holds only given advices and always the first one |
| Selector.MinPeriodPool | adviser/domain/advice/selector.go:18-27 | the intended pool: exactly the advices of the shortest period, never empty |
| Selector.LowestIndex | adviser/domain/advice/selector.go:33-38 | the take-profit loop settles on the first of the lowest take profits |
| Selector.SelectAsWritten | adviser/domain/advice/selector.go:13-41 | nothing exactly for no advices; otherwise a given advice with the lowest take profit of the stale pool, the first such one in pool order |
| Selector.SelectCorrected | adviser/domain/advice/selector.go:13-41 | nothing exactly for no advices; otherwise a given advice of the shortest period and, among those, of the lowest take profit |
| Selector.CollectPool | adviser/domain/advice/selector.go:18-27 | the first loop computes the stale pool |
| Selector.LowestTakeProfit | adviser/domain/advice/selector.go:33-38 | the second loop computes the first lowest take profit |
| Selector.SelectAdvice | adviser/domain/advice/selector.go:13-41 | the two loops together are the selection as written |
| Selector.StalePoolHoldsShortest | adviser/domain/advice/selector.go:18-27 | every advice of the shortest period is in the pool as written |
| Selector.StalePoolExample | adviser/domain/advice/selector.go:21-27 | with periods 5 and 3 and take profits 1 and 2, the code as written selects the period-5 advice while the shortest period is 3 |
| AdviceBase.Conclude | adviser/domain/advice/cbs_adviser.go:48-55 | a failed check ends the evaluation with its reason and error and the windows queried so far; a crash ends it as a panic |
| AdviceBase.Direction | adviser/domain/advice/cbs_adviser.go:166-169 | always 1 or -1, and -1 exactly when the storm's first open lies above the current close |
| AdviceBase.Targets | adviser/domain/advice/cbs_adviser.go:59-66 | take profit above and stop loss below the close for an up move, the other way round otherwise |
| AdviceBase.TargetsStraddleClose | adviser/domain/advice/cbs_adviser.go:59-66 | with non-negative diffs the close lies between the two exit prices, the take profit on the side of the move |
| AdviceBase.NearAveragePasses | adviser/domain/advice/cbs_adviser.go:192-196 | an average within diff of the close passes the direction check in every direction |
| AdviceBase.WrongDirectionSide | adviser/domain/advice/cbs_adviser.go:192-196 | with a non-negative diff, up moves fail only on an average below the close and down moves only on one above it |
| CBSAdviser.ReasonName | adviser/domain/advice/cbs_adviser.go:79-100 | each of the eight known codes has its own name; every other code is "CBSUnknown" |
| CBSAdviser.ReasonNameInjective | adviser/domain/advice/cbs_adviser.go:79-100 | distinct known codes have distinct names, none of them "CBSUnknown" |
| CBSAdviser.Windows | adviser/domain/advice/cbs_adviser.go:108-187 | the storm, calm and direction windows in query order |
| CBSAdviser.CheckStorm | adviser/domain/advice/cbs_adviser.go:134-172 | errors become SystemError; an empty storm panics; it passes exactly when power is within bounds and volume is enough, and then fixes the direction |
| CBSAdviser.CheckCalm | adviser/domain/advice/cbs_adviser.go:102-132 | errors become SystemError; it passes exactly when the calm is non-empty, not too volatile and nearly flat |
| CBSAdviser.CheckDirection | adviser/domain/advice/cbs_adviser.go:174-199 | errors become SystemError; it passes exactly when the look-back average does not contradict the direction |
| CBSAdviser.GetAdvice | adviser/domain/advice/cbs_adviser.go:39-77 | a short vector panics; windows are queried in order, each only after the previous check passed; advice exactly when the reason is Ok, an error exactly when it is SystemError |
| CBSAdviser.AdviceIffAccepted | adviser/domain/advice/cbs_adviser.go:39-77 | an advice is given exactly when all three windows are fetched and accepted; it then straddles the close and expires 3 * (calm + storm) hours later |
| CBSAdviser.StormFirst | adviser/domain/advice/cbs_adviser.go:48-51 | a rejected storm ends the evaluation before the calm window is queried |
| LegacyCBSAdviser.CheckCalm | adviser/domain/advice/adviser.go:78-108 | errors become SystemError; it passes exactly when the calm holds at least half its hours (truncating division), is not too volatile and the close rises at most calmMaxCurvature above its average |
| LegacyCBSAdviser.CheckStorm | adviser/domain/advice/adviser.go:110-143 | errors become SystemError; an empty storm panics; it passes exactly when the power is within bounds, and then fixes the direction |
| LegacyCBSAdviser.GetAdvice | adviser/domain/advice/adviser.go:42-76 | a short vector panics; calm then storm; advice exactly when the reason is Ok, an error exactly when it is SystemError |
| LegacyCBSAdviser.AdviceIffAccepted | adviser/domain/advice/adviser.go:42-76 | an advice is given exactly when both windows pass; it expires one storm duration later with targets following the storm |
| LegacyCBSAdviser.CalmFirst | adviser/domain/advice/adviser.go:51-53 | a rejected calm ends the evaluation before the storm window is queried |
| FTAdviser.ReasonName | adviser/domain/advice/ft_adviser.go:79-96 | each of the six known codes has its own name; every other code is "FTUnknown" |
| FTAdviser.ReasonNameInjective | adviser/domain/advice/ft_adviser.go:79-96 | distinct known codes have distinct names |
| FTAdviser.CheckTrend | adviser/domain/advice/ft_adviser.go:98-133 | errors become SystemError; an empty trend panics only once it passes the volatility test; it passes exactly when calm enough and the close moved from the first open by an amount within the curvature bounds |
| FTAdviser.CheckDirection | adviser/domain/advice/ft_adviser.go:135-160 | errors become SystemError; it passes exactly when the look-back average does not contradict the direction |
| FTAdviser.GetAdvice | adviser/domain/advice/ft_adviser.go:37-77 | a short vector panics; trend then direction; an advice expires 72 hours after the current candle |
| FTAdviser.AdviceIffAccepted | adviser/domain/advice/ft_adviser.go:37-77 | an advice is given exactly when the trend passes and the direction check passes; the targets follow the trend |
| SplitSearch.StormSplits | adviser/domain/advice/cbsr_adviser.go:50-86 | the inner loop of a period: storm from its upper bound down while above the lower bound, calm growing by one hour as the storm shrinks |
| SplitSearch.BoundsOrdered | adviser/domain/advice/cbsr_adviser.go:50-54 | for a non-negative period and ratios 0 <= min <= max, the lower storm bound is at most the upper one: the storm range (lower, upper] the inner loop walks is never inverted |
| SplitSearch.TruncatedShare | adviser/domain/advice/cbsr_adviser.go:50-51 | the storm bounds of both advisers (the scaled adviser repeats them): for a non-negative period and ratio, the whole hours of period times ratio, truncated toward zero, within one hour below the exact share, and never above the period for a ratio of at most one |
| SplitSearch.Splits | adviser/domain/advice/cbsr_adviser.go:49-54 | every split the two loops try lies in the period range and in its period's storm bounds, calm plus storm filling the period; none for an empty range |
| SplitSearch.InnerCount | adviser/domain/advice/cbsr_adviser.go:54 | the inner loop of a period runs max(0, upper - lower) times |
| SplitSearch.SplitsComplete | adviser/domain/advice/cbsr_adviser.go:49-54 | every split in the range and the bounds is tried |
| SplitSearch.SplitsOrdered | adviser/domain/advice/cbsr_adviser.go:49-54 | splits are tried in strictly decreasing (period, storm) order, so none twice |
| SplitSearch.StormSplitsOrdered | adviser/domain/advice/cbsr_adviser.go:54-86 | within a period the storm strictly shrinks |
| SplitSearch.SplitsLength | adviser/domain/advice/cbsr_adviser.go:49-54 | the search tries the sum over periods of the inner counts |
| CBSRAdviser.ReasonName | adviser/domain/advice/cbsr_adviser.go:105-126 | each of the eight known codes has its own name; every other code is "CBSRUnknown" |
| CBSRAdviser.FromCBSReason | adviser/domain/advice/cbsr_adviser.go:128-149 | the eight inner codes map to the same numbers, every other code to -1 |
| CBSRAdviser.ReasonNameInjective | adviser/domain/advice/cbsr_adviser.go:105-126 | distinct known codes have distinct names |
| CBSRAdviser.Derived | adviser/domain/advice/cbsr_adviser.go:65-77 | the inner thresholds of a split: its calm and storm hours, take profit scaled from storm power, look-back days truncated from calm over the ratio |
| CBSRAdviser.TrySplit | adviser/domain/advice/cbsr_adviser.go:55-179 | the calm window is queried first; advice exactly on the inner Ok, an error exactly on the inner SystemError |
| CBSRAdviser.InnerSeesSplit | adviser/domain/advice/cbsr_adviser.go:65-79 | the inner adviser, reading the derived thresholds back, queries the same calm and storm windows the split fetched |
| CBSRAdviser.AttemptConsistent | adviser/domain/advice/cbsr_adviser.go:79-90 | every split evaluation gives an advice exactly on the inner Ok |
| CBSRAdviser.Bump | adviser/domain/advice/cbsr_adviser.go:84 | one more rejection adds one to its reason and leaves the other counts |
| CBSRAdviser.FallbackAsWritten | adviser/domain/advice/cbsr_adviser.go:94-100 | the loop as written answers -1 or a visited key with a positive count |
| CBSRAdviser.FallbackCorrected | adviser/domain/advice/cbsr_adviser.go:94-100 | with maxCount updated the answer has a count no visited key exceeds |
| CBSRAdviser.Fallback | adviser/domain/advice/cbsr_adviser.go:94-102 | the fallback reason is -1 or a reason that was tallied |
| CBSRAdviser.AsWrittenPicksLast | adviser/domain/advice/cbsr_adviser.go:94-100 | as written, with positive counts, the last key visited wins whatever the counts |
| CBSRAdviser.CorrectedPicksMostFrequent | adviser/domain/advice/cbsr_adviser.go:94-100 | corrected, a reason of highest count wins, or -1 for an empty tally |
| CBSRAdviser.FallbackCounterexample | adviser/domain/advice/cbsr_adviser.go:94-100 | with three "too weak" and one "too strong" visited in that order, the code as written answers "too strong" |
| CBSRAdviser.SearchWith | adviser/domain/advice/cbsr_adviser.go:49-102 | the first advice ends the search, a system error aborts it, other reasons are tallied; an exhausted search answers the fallback |
| CBSRAdviser.GetAdvice | adviser/domain/advice/cbsr_adviser.go:39-103 | a short vector panics; advice exactly on Ok; an error only with SystemError |
| CBSRAdviser.TallyCounts | adviser/domain/advice/cbsr_adviser.go:84 | the tally counts each reason's rejections and holds exactly the reasons that occurred |
| CBSRAdviser.FirstDecisive | adviser/domain/advice/cbsr_adviser.go:55-90 | the first split that is not an ordinary rejection decides, after every earlier window was queried in order |
| CBSRAdviser.AllRejected | adviser/domain/advice/cbsr_adviser.go:49-102 | when every split is rejected, every window is queried and the fallback over the whole tally answers |
| CBSRAdviser.MostFrequentWhenCorrected | adviser/domain/advice/cbsr_adviser.go:94-102 | corrected, a fully rejected search answers a most frequent rejection reason, or -1 with no split |
| CBSRAdviser.LastVisitedAsWritten | adviser/domain/advice/cbsr_adviser.go:94-102 | as written, a fully rejected search answers the reason the map iteration visits last |
| CBSRAdviser.FirstAcceptedSplitWins | adviser/domain/advice/cbsr_adviser.go:79-90 | the advice returned is that of the first split in loop order the inner adviser accepts |
| CBSScaledAdviser.Derived | adviser/domain/advice/cbs_scaled_adviser.go:53-65 | the inner thresholds of a split: its calm and storm hours, look-back days truncated, storm power bounds scaled from the calm's maximal change |
| CBSScaledAdviser.TrySplit | adviser/domain/advice/cbs_scaled_adviser.go:43-70 | a calm fetch error is returned as is, then a storm fetch error; a zero check-direction divisor panics; a successful answer is the inner adviser's answer for some parameter vector of the inner arity |
| CBSScaledAdviser.CalmProps | adviser/domain/advice/cbs_scaled_adviser.go:81-95 | the calm is fetched `calm` hours back from the start of the storm; a fetch error passes through; otherwise the volume of the calm and its largest high-minus-low difference, attained by two of its candles, or zero for no candles |
| CBSScaledAdviser.StormPower | adviser/domain/advice/cbs_scaled_adviser.go:97-111 | the storm is fetched `storm` hours back from the current hour; a fetch error passes through; an empty storm panics; otherwise the non-negative distance between the first open and the last close |
| CBSScaledAdviser.Collect | adviser/domain/advice/cbs_scaled_adviser.go:42-75 | nothing for no splits; it succeeds exactly when every split succeeds |
| CBSScaledAdviser.GetAdvices | adviser/domain/advice/cbs_scaled_adviser.go:26-79 | a short vector panics; an empty period range gives no advices |
| CBSScaledAdviser.CollectAppend | adviser/domain/advice/cbs_scaled_adviser.go:74 | collecting over two runs of splits concatenates their advices in loop order |
| CBSScaledAdviser.FirstFailureReturned | adviser/domain/advice/cbs_scaled_adviser.go:44-70 | the first failing split's error or panic is the outcome |
| CBSScaledAdviser.CollectMembers | adviser/domain/advice/cbs_scaled_adviser.go:74 | an advice is collected exactly when some split produced it |
| CBSScaledAdviser.AdvicesFromSplits | adviser/domain/advice/cbs_scaled_adviser.go:37-79 | the advices are exactly the inner advices of the splits the loops try |
| ParamsTester.Settle | adviser/domain/params/tester.go:59-79 | an advice that is not "ok" passes unchanged; an "ok" advice gets exactly the order outcome over the hours after it, up to 30 days, and panics exactly when that fetch fails; nothing else changes |
| ParamsTester.SettleAll | adviser/domain/params/tester.go:59-79 | all advices of an hour settled one by one, in order; a panic exactly when one of them panics |
| ParamsTester.Emit | adviser/domain/params/tester.go:53-82 | one batch per hour, fewer exactly when the run panics |
| ParamsTester.TestParams | adviser/domain/params/tester.go:40-83 | a failed hour fetch panics before any batch |
| ParamsTester.GetTotalSteps | adviser/domain/params/tester.go:85-92 | an error passes through; the total is never negative |
| ParamsTester.TotalCountsBatches | adviser/domain/params/tester.go:40-92 | a run that does not panic emits as many batches as GetTotalSteps reports |
| ParamsTester.BatchesFollowHours | adviser/domain/params/tester.go:53-82 | batch i holds the adviser's advices for hour i, in order, each settled at that hour |
| ParamsTester.AdviserErrorStops | adviser/domain/params/tester.go:54-57 | the run ends at the first hour whose adviser call fails, after the batches of the hours before it |
| TesterApp.OkAdvices | adviser/app/params_tester.go:108-114 | exactly the advices of the batch whose status is "ok" |
| TesterApp.Pick | adviser/app/params_tester.go:108-116 | a batch contributes a pick exactly when it holds an "ok" advice, and the pick is one of them; with the selector as written (the one the applications use) it has the lowest take profit of the selector's pool, and with the corrected selector the lowest take profit among the shortest-period "ok" advices |
| TesterApp.AddStatuses | adviser/app/params_tester.go:108-111 | each status count grows by the number of advices in the batch that carry it |
| TesterApp.Receive | adviser/app/params_tester.go:102-136 | one batch raises the batch count by one and only extends the three lists |
| TesterApp.ReceiveMeaning | adviser/app/params_tester.go:102-136 | a batch with an "ok" advice raises the accepted count by one; a batch without one changes nothing but the batch count and the statuses; every status count grows by the batch's advices of that status; the three lists grow by at most one pick |
| TesterApp.Fold | adviser/app/params_tester.go:102-137 | after the loop the batch count is the number of batches |
| TesterApp.FoldBounds | adviser/app/params_tester.go:102-137 | the accepted count lies between zero and the batch count, and the three lists never hold more than the accepted advices |
| TesterApp.StatusTotal | adviser/app/params_tester.go:108-111 | the total for a status is zero exactly when no advice of any batch carries it |
| TesterApp.Picks | adviser/app/params_tester.go:116-117 | at most one pick per batch |
| TesterApp.CountsMeaning | adviser/app/params_tester.go:102-137 | every batch is counted, and the count of accepted advices is the number of batches with a pick |
| TesterApp.ListsMeaning | adviser/app/params_tester.go:116-136 | the profit, loss and expired lists hold exactly the picks with that order result, in arrival order |
| TesterApp.SidesMeaning | adviser/app/params_tester.go:119-132 | profitBuy and profitSell split the profit list into buys and sells, and lossBuy and lossSell split the loss list |
| TesterApp.DeltaSides | adviser/app/params_tester.go:119-132 | one pick's side counts agree with the list it joins |
| TesterApp.StatusesCount | adviser/app/params_tester.go:108-111 | each status is counted once for every advice of every batch that carries it |
| TesterApp.Bounds | adviser/app/params_tester.go:102-137 | accepted advices never exceed batches, and the three lists never hold more than the accepted advices |
| TesterApp.ClassesDisjoint | adviser/app/params_tester.go:116-136 | no pick lands in two of the lists |
| TesterApp.FoldCounters | adviser/app/params_tester.go:102-137 | the counters are the sum of what each batch adds on its own |
| TesterApp.SumAppend | adviser/app/params_tester.go:102-137 | summing over two runs of batches is adding the two sums |
| TesterApp.OrderIndependent | adviser/app/params_tester.go:84-137 | the counters do not depend on the order in which the quotes' goroutines deliver their batches |
| TesterApp.ProfitsOrderIndependent | adviser/app/params_tester.go:84-137 | neither does the number of profitable picks |
| TesterApp.Ratio | adviser/app/params_tester.go:140-141 | the percentage is undefined exactly when the denominator is zero, and otherwise times the denominator gives a hundred times the numerator |
| TesterApp.RatioBounds | adviser/app/params_tester.go:140-141 | a part over a positive whole is between 0 and 100 percent |
| TesterApp.FiguresMeaning | adviser/app/params_tester.go:140-141 | frequency is defined once a batch arrived and accuracy once a pick was made; both are percentages, and accuracy is zero exactly when no pick hit its take profit |
| TesterApp.FiguresOf | adviser/app/params_tester.go:140-141 | the same bounds for any tally whose counts are consistent |
| TesterApp.SumTotals | adviser/app/params_tester.go:165-176 | the total succeeds exactly when every quote's total does; otherwise it is the first failure |
| TesterApp.SumTotalsAppend | adviser/app/params_tester.go:165-176 | the total of all quotes is the total of the first quotes plus the total of the rest |
| TesterApp.FoldAsWritten | adviser/app/params_tester.go:102-137 | the loop with the progress update, when it does not panic, gives the tally of the loop with the selector as written |
| TesterApp.FoldAsWrittenPanics | adviser/app/params_tester.go:103-106 | the loop panics exactly when some batch arrives while total/100 is zero |
| TesterApp.SmallTotalPanics | adviser/app/params_tester.go:103-106 | with fewer than 100 hours, the progress update divides by zero on the first batch |
| TesterApp.LargeTotalAgrees | adviser/app/params_tester.go:103-106 | with 100 hours or more, the loop as written gives the same tally as the loop without the progress update |
| OptimizerLoop.ScaledGrid | adviser/app/params_optimizer.go:87-121 | the scaled adviser's minimum and maximum corners bound a grid for any positive rate, and only the first two coordinates (the period bounds) vary, so the varying coordinates are contiguous |
| OptimizerApp.ScaledModifier | adviser/app/params_optimizer.go:43-53 | the scaled application's modifier runs between the scaled adviser's minimum and maximum vectors at the given rate, is fresh, and fits the start vector |
| OptimizerLoop.Walk | adviser/app/params_optimizer.go:173 | the loop body runs at most once per call of Modify |
| OptimizerLoop.Answers | adviser/app/params_optimizer.go:173 | one answer per call of Modify |
| OptimizerLoop.Points | adviser/app/params_optimizer.go:173 | the loop body runs at most once per call of Modify |
| OptimizerLoop.WalkWidth | adviser/app/params_optimizer.go:173 | a call that keeps the width of the point keeps it for every point of the loop |
| OptimizerLoop.PointsFit | adviser/app/params_optimizer.go:163-173 | every point the loop visits has the bounds' width, and a fresh modifier's first point is the lower bound |
| OptimizerLoop.StepIsModify | adviser/app/params_optimizer.go:173 | on a vector the modifier can work on, one loop step is one call of Modify, and it leaves a vector the modifier can work on |
| OptimizerLoop.WalkOfCycle | adviser/app/params_optimizer.go:173 | when the calls answer n times true and then false, the body runs n times, on the points of the first n calls |
| OptimizerLoop.AnswersAgree | adviser/app/params_optimizer.go:163-173 | on a vector of the right length, the loop's calls answer as the modifier's own run does |
| OptimizerLoop.NthAgrees | adviser/app/params_optimizer.go:163-173 | and the k-th call leaves the modifier's k-th state |
| OptimizerLoop.CycleWalk | adviser/app/params_optimizer.go:163-173 | a full cycle of answers walks the points of the first GridSize calls |
| OptimizerLoop.LoopVisitsGrid | adviser/app/params_optimizer.go:163-173 | from a fresh modifier the corrected loop runs GridSize times, never on the same point twice, and on every grid point |
| OptimizerLoop.AsWrittenLoopAgrees | adviser/app/params_optimizer.go:163-173 | with contiguous varying coordinates the loop as written visits the same points as the corrected one |
| OptimizerLoop.WalkDetermined | adviser/app/params_optimizer.go:173 | two modifiers whose first k calls agree give the loop the same points |
| OptimizerLoop.ScaledLoopComplete | adviser/app/params_optimizer.go:37-53 | for the scaled adviser's corners, the loop as written visits the whole grid, once per point |
| OptimizerStats.PointStatsMeaning | adviser/app/params_optimizer.go:192-227 | a point's figures are kept with its own parameters; the frequency is the batches with a pick over all batches, and the accuracy the profitable picks over all picks, each undefined for a zero denominator |
| OptimizerStats.PointStatsConsistent | adviser/app/params_optimizer.go:192-220 | a point's accuracy exists exactly when some batch made a pick; it is then a percentage and the frequency is positive |
| OptimizerStats.RatioPositive | adviser/app/params_optimizer.go:219-220 | a positive part of a positive whole is a positive percentage |
| OptimizerStats.PointStatsOrderIndependent | adviser/app/params_optimizer.go:177-217 | a point's figures do not depend on how the quotes' batches interleave |
| OptimizerStats.BetterTransitive | adviser/app/params_optimizer.go:228-232 | the replacement rule is transitive |
| OptimizerStats.BetterTotal | adviser/app/params_optimizer.go:228-232 | among ranked points, a point better than the best so far is better than every point the best so far kept out |
| OptimizerStats.Select | adviser/app/params_optimizer.go:219-234 | the frequent-enough list is no longer than the figures and holds only qualifying figures; the best is the zero value or a frequent-enough entry |
| OptimizerStats.FrequentEnoughInOrder | adviser/app/params_optimizer.go:221-234 | the frequent-enough list holds exactly the points whose frequency reaches the minimum, in visiting order |
| OptimizerStats.BestIsMaximal | adviser/app/params_optimizer.go:170-234 | the best point is the zero value or a frequent-enough point better than it, and no frequent-enough point is better than the best |
| OptimizerStats.BestIsEarliest | adviser/app/params_optimizer.go:228-232 | ties go to the earliest point: each frequent-enough point before the best is strictly worse or has no accuracy |
| OptimizerStats.SavedIff | adviser/app/params_optimizer.go:253-269 | something is saved exactly when some frequent-enough point made a pick |
| OptimizerStats.SaveName | adviser/app/params_optimizer.go:253-262 | the best point is saved exactly when its frequency is a positive number, under the run's name followed by "_" |
| OptimizerApp.StatsOf | adviser/app/params_optimizer.go:173-235 | one figure pair per visited point, each from that point's own batches and the chosen selector |
| OptimizerApp.StatsOfSnoc | adviser/app/params_optimizer.go:173-235 | one more visited point appends its figures |
| OptimizerApp.StatsConsistent | adviser/app/params_optimizer.go:192-220 | the figures of every visited point are consistent |
| OptimizerApp.SelectMeaning | adviser/app/params_optimizer.go:219-234 | for consistent figures, the frequent-enough list is the qualifying figures in visiting order, and none beats the best |
| OptimizerApp.OptimizeParams | adviser/app/params_optimizer.go:149-239 | a quotes error or a failing total ends the run with that error; the run succeeds exactly when the rate is not zero (`GetTotalSteps` divides by it), either total/100 is positive or no visited point receives a batch, and no visited point's backtest panicked (the goroutines do not recover the `panic(err)` of `TestParams`); a successful run is the selection over the figures of the points the modifier as written visits, with the selector as written |
| OptimizerApp.AsWrittenRunMeaning | adviser/app/params_optimizer.go:149-239 | with a positive rate and at least 100 tested hours the run succeeds exactly when no visited point's backtest panicked; then its frequent-enough list is the qualifying figures in visiting order, each consistent, and none beats the best |
| OptimizerApp.OptimizeParamsMeaning | adviser/app/params_optimizer.go:149-239 | with a positive rate, at least 100 tested hours and a full cycle of calls, the run as written visits every grid point once; it succeeds exactly when no point's backtest panicked, and then its selection is the qualifying points in visiting order, each consistent, none beating the best |
| OptimizerApp.OptimizeParamsCorrected | adviser/app/params_optimizer.go:149-239 | the intended run, with the corrected modifier and selector and no progress update: it succeeds exactly when the quotes and their totals do and no visited point's backtest panicked, and passes a quotes error or a total's error on |
| OptimizerApp.OptimizeParamsCorrectedMeaning | adviser/app/params_optimizer.go:149-239 | from a fresh modifier and GridSize + 1 calls, the intended run visits GridSize pairwise distinct points covering the grid, and its selection is the qualifying points in visiting order, each consistent, none beating the best |
| OptimizerApp.AsWrittenAgreesCorrected | adviser/app/params_optimizer.go:149-239 | for the scaled corners, a positive rate and at least 100 hours, both runs panic exactly when a visited point's backtest panicked; otherwise the run as written is the intended run with the selector as written, and it is the intended run when both selectors pick alike in every batch |
| OptimizerApp.FoldAgree | adviser/app/params_optimizer.go:192-217 | when both selectors pick alike in every batch, the two tallies coincide |
| OptimizerApp.StatsOfAgree | adviser/app/params_optimizer.go:173-235 | and then so do the figures of every visited point |
| OptimizerApp.SelectionMeaning | adviser/app/params_optimizer.go:219-234 | whatever points the loop visits, the frequent-enough list is the qualifying points in visiting order, each with consistent figures, and none beats the best |
| OptimizerApp.StatsAsWritten | adviser/app/params_optimizer.go:173-235 | the loop with the progress update, when neither it nor a point's backtest panics, gives the figures of every visited point with the selector as written |
| OptimizerApp.StatsAsWrittenPanics | adviser/app/params_optimizer.go:178-197 | the loop panics exactly when total/100 is zero and some visited point receives a batch, or when some visited point's backtest panicked |
| OptimizerApp.SmallTotalPanicsOptimizer | adviser/app/params_optimizer.go:192-197 | with fewer than 100 hours, the progress update divides by zero on the first batch |
| OptimizerApp.LargeTotalAgreesOptimizer | adviser/app/params_optimizer.go:178-197 | with 100 hours or more, only a point's backtest can panic, and without such a panic the loop as written gives the same figures as the loop without the progress update |
| Strconv.DigitChar | adviser/infrastructure/advice_file_repository.go:72-80 | a digit value renders as a digit character |
| Strconv.DigitValue | adviser/infrastructure/advice_file_repository.go:94-102 | a digit character reads as a value from 0 to 9 |
| Strconv.NatDigits | adviser/infrastructure/advice_file_repository.go:72-80 | a natural number renders as a non-empty string of digits |
| Strconv.Itoa | adviser/infrastructure/advice_file_repository.go:72-80 | an integer renders as a non-empty string, led by '-' exactly when it is negative, and otherwise digits |
| Strconv.ParseNat | adviser/infrastructure/advice_file_repository.go:94-102 | a string reads as a natural number exactly when it is a non-empty string of digits |
| Strconv.Atoi | adviser/infrastructure/advice_file_repository.go:94-102 | a string that reads as an integer is not empty |
| Strconv.ParseNatDigits | adviser/infrastructure/advice_file_repository.go:72-102 | the digits of a natural number read back as that number |
| Strconv.AtoiItoa | adviser/infrastructure/advice_file_repository.go:72-102 | Atoi reads back every integer Itoa writes |
| Strconv.ItoaInjective | adviser/infrastructure/advice_file_repository.go:72-80 | distinct integers render as distinct strings |
| Strconv.Pad | quotes/infrastructure/tiingo/prices_request.go:19-20 | a zero-padded number has the padded width or its own digit count, whichever is larger, and holds only digits |
| Strconv.PadValue | quotes/infrastructure/tiingo/prices_request.go:19-20 | a zero-padded number reads back as itself |
| DatasetBuilder.NewCBSDataset | adviser/domain/dataset/dataset.go:23-29 | the CBS dataset starts with no rows, one input, three outputs and five debug values |
| DatasetBuilder.NewRow | adviser/domain/dataset/dataset.go:31-38 | a new row is empty, and it exists exactly when no declared width is negative |
| DatasetBuilder.NewInput | adviser/domain/dataset/dataset.go:40-44 | the value is appended to both input sequences; outputs and debug values are unchanged |
| DatasetBuilder.NewOutput | adviser/domain/dataset/dataset.go:46-49 | the value is appended to the outputs; nothing else changes |
| DatasetBuilder.NewDebug | adviser/domain/dataset/dataset.go:51-54 | the value is appended to the debug values; nothing else changes |
| DatasetBuilder.AddInputsMeaning | adviser/domain/dataset/dataset.go:40-44 | chained NewInput calls append their values in call order to both input sequences |
| DatasetBuilder.AddOutputsMeaning | adviser/domain/dataset/dataset.go:46-49 | chained NewOutput calls append their values in call order |
| DatasetBuilder.AddDebugMeaning | adviser/domain/dataset/dataset.go:51-54 | chained NewDebug calls append their values in call order |
| DatasetBuilder.BuildRowMeaning | adviser/domain/dataset/dataset.go:31-54 | a row built from a fresh row holds exactly the given values, its normalized inputs copy the originals, and it fits the dataset exactly when the counts match the widths |
| DatasetBuilder.CBSRowFits | adviser/domain/dataset/dataset.go:23-54 | every row with one input, three outputs and five debug values fits the CBS dataset |
| Normalizer.Widen | adviser/domain/normalizer/normalizer.go:18-25 | one row widens the bounds and keeps their length; it panics exactly when the row has more inputs than the bounds |
| Normalizer.Zeros | adviser/domain/normalizer/normalizer.go:15-16 | the bounds before any row is seen: n zeros |
| Normalizer.Scan | adviser/domain/normalizer/normalizer.go:17-26 | the scan over all rows keeps the bounds' length |
| Normalizer.NewNormalizer | adviser/domain/normalizer/normalizer.go:14-32 | the bounds have one entry per declared input |
| Normalizer.ScanMeaning | adviser/domain/normalizer/normalizer.go:17-26 | the scan succeeds exactly when no row is wider than the bounds; then each bound encloses zero and every value of its column, and is zero or one of those values |
| Normalizer.WidenMeaning | adviser/domain/normalizer/normalizer.go:18-25 | one more row keeps the bounds enclosing and attained |
| Normalizer.NewNormalizerMeaning | adviser/domain/normalizer/normalizer.go:14-32 | the normalizer exists exactly when the declared input count is not negative and no row is wider; then its bounds have one entry per declared input, enclose zero and every value of their column, and are each zero or one of those values |
| Normalizer.Scale | adviser/domain/normalizer/normalizer.go:41-45 | a column whose bounds coincide maps to 1; otherwise the value's position between the bounds maps back to the value |
| Normalizer.ScaleBounds | adviser/domain/normalizer/normalizer.go:43-45 | a value between the bounds scales into the unit interval, the lower bound to 0 and the upper bound to 1 |
| Normalizer.NormalizeRow | adviser/domain/normalizer/normalizer.go:40-47 | a row is rewritten, not a panic, exactly when the bounds and its normalized inputs are at least as long as its original inputs |
| Normalizer.NormalizeRows | adviser/domain/normalizer/normalizer.go:39-48 | every row is rewritten as NormalizeRow rewrites it; a panic means some row does not fit |
| Normalizer.NormalizeDataset | adviser/domain/normalizer/normalizer.go:34-49 | an empty dataset is unchanged; a panic happens exactly when some row does not fit; otherwise only the normalized inputs change, each scaled between its column's bounds |
| Normalizer.NormalizedInUnitInterval | adviser/domain/normalizer/normalizer.go:14-49 | a normalizer built from an aligned dataset normalizes that dataset without panicking, and every rewritten input lies between 0 and 1 |
| AdviceRecords.AdviceToRecord | adviser/infrastructure/advice_file_repository.go:68-88 | twelve fixed fields in their positions, then one rendered field per adviser parameter |
| AdviceRecords.RecordToAdvice | adviser/infrastructure/advice_file_repository.go:90-125 | a record shorter than twelve fields panics; otherwise every field is read from its position, and an unparsable number reads as zero |
| AdviceRecords.ReadParams | adviser/infrastructure/advice_file_repository.go:105-108 | one adviser parameter per field after the twelfth, each the field read as a decimal or zero |
| AdviceRecords.ReadOrZero | adviser/infrastructure/advice_file_repository.go:97-107 | a field that parses reads as its value, and a non-zero result means the field parsed to it; otherwise zero |
| AdviceRecords.RoundTrip | adviser/infrastructure/advice_file_repository.go:68-125 | reading a written record gives the advice back, when the decimal library reads back what it writes |
| AdviceRecords.RecordRoundTrip | adviser/infrastructure/advice_file_repository.go:68-125 | writing a read record reproduces it, when every field is in the form the writer produces |
| AdviceRecords.Mangle | adviser/infrastructure/advice_file_repository.go:127-130 | every '=' becomes '_' and every other character is kept |
| AdviceRecords.FilePath | adviser/infrastructure/advice_file_repository.go:127-130 | the path is the directory, then the name without any '=', then ".csv" |
| AdviceRecords.MangleMeaning | adviser/infrastructure/advice_file_repository.go:127-130 | no '=' is left, a second pass changes nothing, and a name without '=' is unchanged |
| AdviceRecords.FilePathCollision | adviser/infrastructure/advice_file_repository.go:127-130 | names that differ only in '=' against '_' share a file |
| AdviceRecords.FilePathInjective | adviser/infrastructure/advice_file_repository.go:127-130 | names without '=' get distinct files |
| AlphaVantage.MonthSlices | quotes/infrastructure/candlestick_alfa_vantage_loader.go:117-119 | months m to 12 of a year, one slice name each, in order |
| AlphaVantage.YearSlices | quotes/infrastructure/candlestick_alfa_vantage_loader.go:116-120 | twelve slice names per remaining year |
| AlphaVantage.Slices | quotes/infrastructure/candlestick_alfa_vantage_loader.go:114-123 | twenty-four slice names: two years back, twelve months each |
| AlphaVantage.SlicesOrder | quotes/infrastructure/candlestick_alfa_vantage_loader.go:114-123 | the slice of month m of year y sits at index 12(y-1) + (m-1): years outer, months inner |
| AlphaVantage.SlicesDistinct | quotes/infrastructure/candlestick_alfa_vantage_loader.go:114-123 | no slice is downloaded twice |
| AlphaVantage.SliceNameInjective | quotes/infrastructure/candlestick_alfa_vantage_loader.go:118 | different year and month pairs give different slice names |
| AlphaVantage.IntervalName | quotes/infrastructure/candlestick_alfa_vantage_loader.go:106-112 | "60min" exactly for hourly candles, and the empty name otherwise |
| AlphaVantage.IndexOf | quotes/infrastructure/candlestick_alfa_vantage_loader.go:97-104 | the first position where the pattern occurs, or none when it does not occur |
| AlphaVantage.ReplaceFirst | quotes/infrastructure/candlestick_alfa_vantage_loader.go:97-104 | only the first occurrence of the pattern is replaced; a string without it is unchanged |
| AlphaVantage.Url | quotes/infrastructure/candlestick_alfa_vantage_loader.go:97-103 | the URL starts with the template's fixed part up to the first placeholder, whatever the values |
| AlphaVantage.UrlLayout | quotes/infrastructure/candlestick_alfa_vantage_loader.go:23-104 | when the symbol and the interval hold no '{', the symbol, interval, slice and API key each land in their own query parameter of the template |
| AlphaVantage.RecordToCandle | quotes/infrastructure/candlestick_alfa_vantage_loader.go:125-161 | interval, quote and a zero adjusted close are always set; conversion stops at the first field that fails, leaving the later fields zero; a short record panics exactly when all its fields convert; success exactly when all six fields convert |
| AlphaVantage.FieldsMap | quotes/infrastructure/candlestick_alfa_vantage_loader.go:130-160 | field 0 is the timestamp, 1 the open, 2 the high, 3 the low, 4 the close and 5 the volume |
| AlphaVantage.CandleToRecord | quotes/infrastructure/candlestick_alfa_vantage_loader.go:125-161 | a candle written back as the six fields the loader reads |
| AlphaVantage.RecordRoundTrip | quotes/infrastructure/candlestick_alfa_vantage_loader.go:125-161 | converting a written candle gives the candle back, when time and decimal parsing invert their renderings |
| Tiingo.DigitsAtMost | quotes/infrastructure/tiingo/prices_request.go:19-20 | a number below 10^w has at most w digits |
| Tiingo.FormatDateParse | quotes/infrastructure/tiingo/prices_request.go:19-20 | a valid date renders in ten characters, and its year, month and day read back from their positions |
| Tiingo.FormatDateInjective | quotes/infrastructure/tiingo/prices_request.go:19-20 | two valid dates render alike exactly when they fall on the same day |
| Tiingo.FormatDate | quotes/infrastructure/tiingo/prices_request.go:19-20 | a date renders as at least ten characters, each a digit or '-' |
| Tiingo.GetPath | quotes/infrastructure/tiingo/prices_request.go:16-24 | the path starts with "/iex/", the ticker and "/prices" |
| Tiingo.PathDeterminesRequest | quotes/infrastructure/tiingo/prices_request.go:16-24 | for tickers without '/', two requests share a path exactly when they agree on ticker, start day, end day and frequency |

## Left out

- `CalculateVolatility`: its float64 and `math.Pow` computation is not modelled. Every adviser takes it as an uninterpreted `Volatility` function, which is unconstrained even on an empty window, so the panic `FTAdviser.CheckTrend` meets on an empty trend in Go is left open.
- TesterApp.Ratio, OptimizerStats.Select: the frequency and accuracy percentages are exact quotients, where the program computes `float64(num) / float64(den) * 100` and rounds twice (params_tester.go:140-141, params_optimizer.go:219-220). The rounded value can differ from the exact one: 57 ok batches out of 100 give 56.99999999999999 in float64. So the `frequency >= minFrequency` threshold can admit a point here that the program drops (57 of 100 against a `minFrequency` of 57), and two different exact accuracies that round to the same float64 tie in the program but not in `Better`. The results of `Select`, `BestIsMaximal` and the optimizer lemmas hold for the exact figures.
- Decimal rounding: shopspring `Div` rounds to 16 fractional digits, but the model divides exact reals. This affects the SMA, the normalizer, the derived thresholds of the recursive and scaled advisers, and `Steps`/`TotalSteps`, where Go rounds 1/rate to 16 digits before `Ceil`.
- The clock: `time.Now()` in the empty-period branch of `CalculateOrderResult` is a parameter, and its value is left unspecified.
- Concurrency: the quotes' goroutines, the WaitGroup and the channel become one sequence of per-hour batches in arrival order, plus one flag for a panic in any of them. Which batches other goroutines delivered before such a panic does not change the outcome, since the process ends. The order-independence lemmas cover every interleaving of two quotes' runs.
- Progress bars, printing and `FormatFloat`: they are not modelled. The integer-division panic of the progress update changes the outcome, so it is kept in `TesterApp.FoldAsWritten` and `OptimizerApp.StatsAsWritten`, and through the latter in `OptimizerApp.OptimizeParams`. The intended run `OptimizerApp.OptimizeParamsCorrected` leaves it out.
- `SaveAdvices`, `LoadAdvices`, `SaveParams` and all other os/csv file I/O: they are outside the model. The record layout and the file-name rule are modelled.
- Go map iteration order: it is unspecified, so the recursive adviser's fallback loop takes it as a parameter.
- OptimizerApp.OptimizeParams: the `for modifier.Modify(...)` loop is bounded by a `fuel` count of calls. The lemmas use GridSize + 1 calls, which is enough for a full cycle.
- BruteForceModifier.Modify: requires a vector the modifier can work on (`Fits`). With empty bounds Go panics on the second call, when it indexes coordinate 0; the model does not state that panic. In the optimizer loop, `OptimizerLoop.Step` answers false for such a vector instead.
- SignalModifier.SignalModify: requires `Fits` for the same reason, so the same empty-bounds panic is not stated.
- Integer overflow: integers are unbounded, so neither the `time.Duration` overflow of the greedy getter's `count*10` hours nor the machine-`int` wrap-around of `GetTotalSteps` (brute_force_modifier.go:65-74), whose product of `steps+1` over the varying coordinates wraps for a fine rate and many coordinates, is modelled. `GridSearch.TotalSteps` is the exact product.
- Strconv.Atoi: accepts integers of any size. `strconv.Atoi` also rejects values outside the 64-bit range, and that check is not modelled.
- `decimal.NewFromString`, `Decimal.String` and `time.Parse`: they are parameters. The round-trip lemmas assume that parsing inverts rendering.
- Tiingo: converting an instant to calendar fields in its location is not modelled. A `time.Time` enters as its year, month and day.
- Normalizer: nil rows and the aliasing of row pointers in `NormalizeDataset` are not modelled, because rows are values.
- Slice capacities: `make(.., 0, n)` in `NewRow` is modelled only through its negative-capacity panic.
- HTTP downloads, the Alpha Vantage download-and-sleep loop and the Tiingo client are outside the model.
- The neural network code (`nn`, `nn_tester`, `nn_trainer`) is not part of this model. It is float64 matrix code with random initialisation. Only the widths `CBSInputs` and `CBSOutputs` are used.
- AlphaVantage.Slices: `getAlphaVantageSlices` ignores its two times, so the model takes no arguments.
- adviser/app/signal_optimizer.go, adviser/app/signal_tester.go and adviser/domain/dataset/factory.go are not part of this model. They use order-result constants that the calculator does not define, and the optimizer's selection rule duplicates params_optimizer.go.
- Entry points, gRPC and service plumbing, the chart viewers and `adviser/app/adviser.go` are outside the model.
- AdviceCBSParams.SetParams, AdviceCBSScaledParams.SetParams, AdviceFTParams.SetParams, ParamsCBS.SetParams, ParamsCBSR.SetParams, ParamsFT.SetParams, SignalCBSParams.SetParams: each requires a vector of at least the arity. Go panics on a shorter slice; the advisers' `GetAdvice` models that panic instead.
- AlphaVantage.UrlLayout: states the layout only for a symbol and an interval without '{'. With such a character, a later placeholder can be found inside an earlier replacement.

## Findings

| source | as written | input that shows it | evidently intended | confidence | as-written member | corrected member |
|---|---|---|---|---|---|---|
| adviser/domain/params/brute_force_modifier.go:45-49 | the forward loop only inspects coordinate cp+1 and stops at a fixed coordinate | min [0,0,0], max [1,0,1], rate 1: three points are produced, [0,0,1] is never produced, while GetTotalSteps reports 4 | step over coordinates whose bounds coincide, so every grid point is visited once | not executed | BruteForceAsWritten.SkippedPointExample | BruteForceCycle.CorrectedCycleLength |
| adviser/domain/signal/modifier.go:42-54 | backtracking decrements and advancing increments cp by one, without skipping fixed coordinates | coordinate 0 fixed with any other coordinate varying: only the minimum corner is produced, while GetTotalSteps reports at least 2 | visit every grid point | not executed | SignalModifier.FixedFirstStops | BruteForceCycle.CorrectedCycleLength |
| adviser/domain/advice/cbsr_adviser.go:94-100 | `maxCount` is never updated inside the loop, so every positive count replaces the answer | three "too weak" rejections and one "too strong" rejection, visited in that order: the answer is "too strong" | the most frequent rejection reason | not executed | CBSRAdviser.FallbackCounterexample | CBSRAdviser.MostFrequentWhenCorrected |
| adviser/domain/advice/selector.go:18-27 | when a shorter look-back period appears, the pool is not cleared | advices with periods 5 and 3 and take profits 1 and 2: the period-5 advice is selected | the advice with the lowest take profit among those of the shortest period | not executed | Selector.StalePoolExample | Selector.SelectCorrected |
| adviser/app/params_tester.go:104 | `count%(total/100)` | fewer than 100 tested hours: integer division by zero on the first batch | update the progress bar without dividing by zero | not executed | TesterApp.SmallTotalPanics | TesterApp.LargeTotalAgrees |
| adviser/app/params_optimizer.go:195 | `globalCount%(testerTotalSteps/100)` | fewer than 100 tested hours: integer division by zero on the first batch | update the progress bar without dividing by zero | not executed | OptimizerApp.SmallTotalPanicsOptimizer | OptimizerApp.LargeTotalAgreesOptimizer |

The tester application and `OptimizerApp.OptimizeParams` use the selector and the modifier as written, as the applications do. `OptimizerApp.OptimizeParamsCorrected` is the intended run, with `Selector.SelectCorrected` and the corrected modifier. `OptimizerLoop.ScaledLoopComplete` shows that the scaled adviser's corners vary only in contiguous coordinates, so for those corners the modifier as written visits the same points as the corrected one. `OptimizerApp.AsWrittenAgreesCorrected` relates the two runs: they differ only through the selector.
