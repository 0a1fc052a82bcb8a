# Verified model of the cross-pool arbitrage engine

A Dafny model of the decision core of a Solana arbitrage bot: how it prices a swap, sizes a trade,
filters opportunities, accepts a route, reads bin arrays from account bytes, and how its risk tracker
and confirmation queue behave while the main loop and a background task interleave.

`dafny verify dfyconfig.toml` checks everything. One module per component:

| file | component |
|---|---|
| Arith | machine integers, saturating and truncating casts, floor-division facts |
| ConstantProduct | the three constant-product pricing forms and the PumpSwap wrappers |
| Dlmm, DlmmSplit, DlmmOptimal, DlmmOrder | the DLMM bin walk: method, splitting, and exactly when it is optimal and independent of the bins' order |
| GoldenSection, Legs, Sizing, SizingOptimality, Unimodal | trade sizing: capacity bisection, golden-section search, and why both are right for these pools |
| Spread, Opportunities | pool prices and fees, spread filters, the scan over venue pairs and its final order |
| Route | the four builders' re-pricing, slippage and acceptance |
| Risk, Confirmation, Eviction, Protocol, ProtocolSafety, ProtocolLimits | risk tracker, confirmation queue, and every interleaving of both |
| TickArrays, BinArrays, BinFetch | index geometry, the bin-array byte parser, and the cached fetch |

Code that mutates state is modelled by methods: the fill loop, the two numeric searches, the byte
parser and the fetch are loops with invariants; the risk tracker, the channel, the confirmation task
and the growable bin list are classes. Each method is proved equal to a function of its inputs or old
state, and the results below are proved about those functions. Amounts the original keeps in `f64` are
`real`; raw amounts are integers of the original's width, with every cast written out.

## What the main results say

* **Swaps.** Each constant-product form pays exactly the largest amount that keeps the product of the
  reserves; a sell-back never returns more than was put in; the checked, unchecked, scanner and builder
  forms agree. The DLMM walk is the best way to spend an input over the bins exactly when their
  prices never rise, never gains from being split, and what it pays depends on the order the bins arrive
  in exactly when tradable bins share an id at different prices.
* **Sizing.** For a pair of smooth pools (constant-product, or bins in falling price order) the capped
  net profit is concave up to a computed rounding, so the twelve golden-section steps on the *integer*
  pricing miss the best investment by at most a stated slack. On two constant-product pools the
  unrounded net is strictly unimodal, a maximiser is unique and never leaves the bracket, and whether or
  not there is one every investment is matched or beaten by one near the result.
* **Filters.** The gross profit of an honest pair is at most the investment times the relative spread,
  so the price-direction skip and the cap-artifact filter cost no honest profit at one basis point and
  above; below that the filter does drop honest pairs, at every size from 10.001 to 100000 SOL. What a
  scan returns is refused by the risk check only through its breaker.
* **Routes.** Every accepted route nets the threshold for every delivery from the minimum up.
* **Risk.** In every interleaving the daily loss is bounded by the limit plus the largest single loss
  times the number of trades exposed when the breaker tripped, and every submitted trade is in exactly
  one place. A whole day is held to that bound exactly when no trade can lose anything, and any run
  until a cooldown or a new day resets the figure.
* **Bins.** Parsing undoes serialising for both layouts, a truncated account yields exactly the bins
  that fit, and the estimate does not depend on which arrays came from the cache.

## Where the code and its comments differ, or a natural property fails

The model follows the code; each point has a lemma.

* The eviction comment says the older half is dropped (`src/executor/confirmation.rs:89`). For a queue
  in submission order that holds exactly when the removals of the cycle were safe
  (`EvictionDropsOldestIff`): for up to 64 of them, when none lies among the dropped positions
  (`FewRemovalsDropOldestIff`). One removal there makes eviction drop the newest entry of all
  (`SwapRemoveEvictsNewest`).
* Entries whose signature does not parse (bundle ids) are skipped when signatures are collected but
  not when statuses are matched by index. The right entries are recorded exactly when every entry up to
  the last processed index parses (`TouchesConfirmedIffAligned`); otherwise one trade is booked twice
  (`MisalignedEntryIsBookedTwice`).
* The daily loss limit is a limit per cooldown window: a cooled-down breaker resets the daily figure, so
  whatever a single trade can lose, one day can lose more than the limit plus one trade
  (`DailyLimitIsPerWindow`), and with k cooldowns more than k + 1 limits (`EveryWindowCanLose`). The
  bound holds for every run of a day exactly when no trade can lose (`HeldIffNothingToLose`), and for
  any run until the first reset (`HeldUntilReset`).
* The projected-loss branch of the check can never fire (`ProjectedLossNeverFires`);
  `ProjectedLossFiresIff` gives the unreachable states it would fire in.
* The computed DLMM fee can exceed 100%, which the pricing subtracts from 10000
  (`FeeIsPriceableIff`).
* The estimator's comment describes constant-product pricing inside each bin
  (`src/simulator/dlmm/mod.rs:131`); the code pays a fixed price per bin. The loop is optimal
  exactly on prices that never rise (`OptimalIffPricesDescend`).
* Rearranging the bins leaves the traversal alone exactly when no two different funded bins share an id
  (`TraversalOrderFreeIff`), and the amount paid alone exactly when tradable bins that share an id sell
  at one price (`WalkOrderFreeIff`, `EstimateOrderFreeIff`). The fetch of a window never produces a
  shared id (`WindowIdsAreConsistent`).
* The bin-array comment speaks of 69 bins of 144 bytes; the code reads 70 bins of 128 or 144 bytes.
* The array window is centred by truncating division: for negative ids that are not multiples of 70
  the active bin's array is one below the middle (`WindowHoldsActive`).
* Tick-array starts are computed in wrapping 32-bit arithmetic; they tile exactly when none wraps
  (`ArraysTileIff`).
* A re-capped investment is judged against the uncapped one; the check is too strict by the difference,
  never too lenient (`AcceptedIff`).

## Model

| member | source | states |
|---|---|---|
| ConstantProduct.CurveOutIsLargestSafe | src/simulator/mod.rs:115-133 | an amount can be taken out exactly when the product of the reserves does not drop: the output is the largest such amount |
| ConstantProduct.CurveKeepsProduct | src/simulator/mod.rs:115-133 | the product never drops and a pool with input-side reserves is never emptied |
| ConstantProduct.CurveMonotone | src/simulator/mod.rs:115-133 | more after-fee input never pays less |
| ConstantProduct.CurveRoundTrip | src/simulator/mod.rs:115-177 | selling the output back into the pool a swap left never returns more than the pool kept |
| ConstantProduct.AdditiveFormLaws | src/simulator/mod.rs:115-133 | additive-fee form: monotone in the amount, antitone in the fee, keeps the product, below the reserve |
| ConstantProduct.PpmFormLaws | src/executor/atomic/generic_route.rs:470-502 | the same for the subtractive form in parts per million |
| ConstantProduct.BpsFormLaws | src/arbitrage/scanner_queries.rs:141-152 | the same for the scanner's basis-point form |
| ConstantProduct.AdditiveRoundTrip | src/simulator/mod.rs:115-133 | buy then sell everything back with the additive form: at most what was put in, fee kept or not |
| ConstantProduct.PpmRoundTrip | src/executor/atomic/generic_route.rs:470-502 | the same round trip with the subtractive form |
| ConstantProduct.EstimateIsExact | src/simulator/mod.rs:115-133 | the unchecked estimate's u64 casts lose nothing |
| ConstantProduct.CheckedRefinesUnchecked | src/simulator/mod.rs:147-177 | the checked estimate never overflows, carries the unchecked value, and is None exactly for a positive input whose unchecked output is 0 |
| ConstantProduct.CheckedCpRefinesPpm | src/executor/atomic/generic_route.rs:470-502 | the checked subtractive form: no overflow, no lossy cast, None exactly for a fee above 100% or a positive trade that rounds to nothing |
| ConstantProduct.ScannerFormAgrees | src/arbitrage/scanner_queries.rs:149-150 | the scanner's form equals the builder's at 100 times the rate and never exceeds the additive form |
| ConstantProduct.PumpswapRoundTrip | src/simulator/pumpswap/math.rs:46-64 | a PumpSwap buy then sell of everything bought pays back at most the quote spent (fixes which reserve is which) |
| Dlmm.EstimateSwapOutputFull | src/simulator/dlmm/mod.rs:156-232 | the estimator returns the walk over the ordered active bins, the number of bins touched, the number of active bins, and the first three touched |
| Dlmm.Fill | src/simulator/dlmm/mod.rs:183-214 | the fill loop with its early break computes the walk and the visited bins |
| Dlmm.WalkMonotone | src/simulator/dlmm/mod.rs:183-214 | more input never pays less, and never more than the usable bins hold |
| Dlmm.EstimateMonotone | src/simulator/dlmm/mod.rs:156-232 | the estimate grows with the amount and shrinks with the fee |
| Dlmm.OutputFromVisited | src/simulator/dlmm/mod.rs:191-214 | the reported bins account for the output: all but the last were exhausted, the last filled with what was left |
| Dlmm.SortKeepsBins | src/simulator/dlmm/mod.rs:170-181 | sorting rearranges the bins and nothing else |
| Dlmm.SortOrders | src/simulator/dlmm/mod.rs:176-181 | highest id first when selling X, lowest first otherwise |
| Dlmm.OrderedIsUnique | src/simulator/dlmm/mod.rs:170-181 | two ordered arrangements of bins with consistent ids are the same list |
| Dlmm.TraversalIgnoresArrivalOrder | src/simulator/dlmm/mod.rs:170-181 | as long as no two different funded bins share an id, traversal and estimate do not depend on the order in which bins arrive |
| Dlmm.SharedIdDependsOnOrder | src/simulator/dlmm/mod.rs:170-181 | an instance: two bins under one id whose order changes the estimate tenfold |
| DlmmOrder.SharedIdShowsInTraversal | src/simulator/dlmm/mod.rs:170-181 | among any other bins, two different funded bins of one id give different traversals in the two arrival orders |
| DlmmOrder.TraversalOrderFreeIff | src/simulator/dlmm/mod.rs:170-181 | every rearrangement has the same traversal exactly when no two different funded bins share an id |
| DlmmOrder.WalkOrderFreeIff | src/simulator/dlmm/mod.rs:170-214 | every rearrangement pays the same for every amount exactly when tradable bins that share an id sell at one price |
| DlmmOrder.EstimateOrderFreeIff | src/simulator/dlmm/mod.rs:156-232 | under that condition the estimate is order free; where the bins' totals fit the casts, only under it |
| DlmmOrder.SharedIdPair | src/simulator/dlmm/mod.rs:170-214 | two different funded bins of one id, alone: the traversal always tells their order, the estimate exactly when their prices differ |
| DlmmSplit.AfterConserves | src/simulator/dlmm/mod.rs:183-214 | what leaves the bins is exactly what was paid |
| DlmmSplit.SplittingNeverHelps | src/simulator/dlmm/mod.rs:183-214 | two walks, the second on what the first left, pay at most the single walk and at least that minus 1 |
| DlmmOptimal.WalkIsFloorOfRealWalk | src/simulator/dlmm/mod.rs:183-214 | the integer walk is the unrounded walk rounded down once |
| DlmmOptimal.FillIsOptimal | src/simulator/dlmm/mod.rs:170-214 | with non-increasing prices no integer allocation of the input over the bins pays more than the loop |
| DlmmOptimal.FillIsAnAllocation | src/simulator/dlmm/mod.rs:183-214 | the loop itself is such an allocation, so the optimum is attained |
| DlmmOptimal.OptimalIffPricesDescend | src/simulator/dlmm/mod.rs:170-214 | no allocation of any amount beats the loop exactly when prices never increase along the bins |
| DlmmOptimal.BetterAllocation | src/simulator/dlmm/mod.rs:170-214 | any list out of price order has an amount and an allocation that beat the loop |
| DlmmOptimal.AscendingPricesAreNotOptimal | src/simulator/dlmm/mod.rs:170-214 | an instance: two bins of any one size in ascending price order |
| GoldenSection.ProbesAreReused | src/arbitrage/scanner_queries.rs:202-238 | the probe kept by a comparison is the probe the shorter bracket needs |
| GoldenSection.RunShrinks | src/arbitrage/scanner_queries.rs:202-238 | n comparisons leave a bracket of width (hi - lo) * r^n inside the range |
| GoldenSection.RunKeepsPeak | src/arbitrage/scanner_queries.rs:219-233 | on a strictly unimodal function the maximiser never leaves the bracket |
| GoldenSection.BestNearPeak | src/arbitrage/scanner_queries.rs:219-237 | the reported point is within half the final bracket of the maximiser |
| GoldenSection.BestNearlyOptimal | src/arbitrage/scanner_queries.rs:219-237 | on a rounded concave function no point beats the reported one by more than the rounding of each comparison plus the slope over half the final bracket |
| Legs.LegChord | src/arbitrage/scanner_queries.rs:164-188 | a smooth leg's unrounded curve is concave |
| Legs.LegIncreases | src/arbitrage/scanner_queries.rs:164-188 | a smooth leg's curve increases, by at most its spot price per unit |
| Legs.LegRounds | src/arbitrage/scanner_queries.rs:164-188 | the integer leg is below its curve by at most one unit of output plus the price of one unit of input |
| Sizing.SimulateBuyMonotone | src/arbitrage/scanner_queries.rs:141-152 | investing more never buys fewer tokens, on bins and on the curve |
| Sizing.FeasibilityIsThreshold | src/arbitrage/scanner_queries.rs:115-138 | an investment splits the axis: feasible means all below are, infeasible means all above are |
| Sizing.FindMaxInvestWithinCapacity | src/arbitrage/scanner_queries.rs:115-138 | everything up to the result is feasible, everything from 1/4096 of the range above it is not, unless the whole range is feasible and returned |
| Sizing.CapacityIsFeasible | src/arbitrage/scanner_queries.rs:115-138 | the bisection's result and everything below it is feasible |
| Sizing.GoldenSearch | src/arbitrage/scanner_queries.rs:202-238 | the loop that re-uses one value per step returns what the plain search returns |
| Sizing.GoldenSearchProfit | src/arbitrage/scanner_queries.rs:202-238 | its result lies in the range and comes with its own gross and net |
| Sizing.SearchUpper | src/arbitrage/scanner_queries.rs:54-97 | the early returns and the range end, which satisfies every size limit |
| Sizing.RangeWithinLimits | src/arbitrage/scanner_queries.rs:62-97 | every investment in the searched range is within maximum investment, both pool shares, 1.2 times the sell cap, and buys at most the token share |
| Sizing.EstimateProfit | src/arbitrage/scanner_queries.rs:54-112 | all zeros, or an investment of at least 0.001 inside every limit, found by the search, with its own profit and confidence |
| Sizing.Confidence | src/arbitrage/scanner_queries.rs:102-109 | the confidence lies in [0, 1] |
| SizingOptimality.RoundTripChord | src/arbitrage/scanner_queries.rs:155-188 | the unrounded round trip through two smooth legs is concave |
| SizingOptimality.RoundTripRounds | src/arbitrage/scanner_queries.rs:155-188 | the integer round trip is below it by at most a computed loss |
| SizingOptimality.SmoothNetConcave | src/arbitrage/scanner_queries.rs:155-199 | the net with the pool-share cap is concave in the investment |
| SizingOptimality.ObjectiveRounds | src/arbitrage/scanner_queries.rs:155-199 | the integer net is below the concave one by at most a computed loss |
| SizingOptimality.SearchNearlyOptimal | src/arbitrage/scanner_queries.rs:155-238 | on the integer pricing no investment in the range nets more than the one found, up to the slack |
| SizingOptimality.EstimateNearlyOptimal | src/arbitrage/scanner_queries.rs:54-112 | the same for the range the profit estimate searches |
| Unimodal.NetIsStrictlyUnimodal | src/arbitrage/scanner_queries.rs:155-199 | the unrounded capped net of two constant-product pools is strictly unimodal |
| Unimodal.PeakIsUnique | src/arbitrage/scanner_queries.rs:155-238 | the most profitable investment is unique |
| Unimodal.SearchFindsPeak | src/arbitrage/scanner_queries.rs:202-238 | where a best investment exists it stays in the bracket after any number of steps, and the result is within (hi - lo) * r^12 / 2 of it |
| Unimodal.SearchKeepsBetter | src/arbitrage/scanner_queries.rs:202-238 | whether or not it exists, every investment in the range is matched or beaten by one within (hi - lo) * r^12 / 2 of the result |
| Spread.FeeIsPriceableIff | src/arbitrage/prices/price_query.rs:73-78 | the fee is at least 1 bp, and at most 100% exactly for an unknown base factor or one that covers the bin step |
| Spread.PriceIsPositive | src/arbitrage/prices/price_query.rs:27-36 | price times tokens, adjusted for decimals, gives back the SOL reserve |
| Spread.CurveBelowSpot | src/arbitrage/scanner_queries.rs:164-188 | a curve pays less than its reserve ratio, strictly if anything |
| Spread.GrossBoundedBySpread | src/arbitrage/scanner_queries.rs:155-199 | gross is at most investment times relative spread; buying at or above the sell price always loses |
| Spread.SpreadWithinOneBps | src/arbitrage/scanner.rs:242-243 | the basis points are the relative spread rounded down |
| Spread.FilterKeepsHonestPairs | src/arbitrage/scanner.rs:333-342 | the cap-artifact filter never drops an honest pair at 1 bp or more (below saturation of the u32 spread), nor below 1 bp up to 10 SOL |
| Spread.ThinSpreadIsDropped | src/arbitrage/scanner.rs:333-342 | below 1 bp, with a pool share of at least 2%, it drops an honest profitable pair at every investment from 10.001 to 100000 SOL |
| Opportunities.BestSnapshotsAreExtreme | src/arbitrage/prices/mod.rs:53-74 | a venue is bought from at its lowest and sold to at its highest price among pools deep enough, and has neither exactly when none is |
| Opportunities.BuildOpportunities | src/arbitrage/scanner.rs:159-464 | the nested loops return the stably sorted list of what every ordered pair of venues yields |
| Opportunities.ConsiderPair | src/arbitrage/scanner.rs:202-455 | the inner body with its filters in order computes what the pair yields |
| Opportunities.SortIsOrdered | src/arbitrage/scanner.rs:457-461 | sorting loses nothing and puts the highest net first |
| Opportunities.ScanIsExactAndOrdered | src/arbitrage/scanner.rs:159-464 | an opportunity is returned exactly when some ordered pair of enabled venues yields it, at most once, best first |
| Opportunities.OpportunitiesAreSound | src/arbitrage/scanner.rs:202-455 | every opportunity respects depth, spread bounds, size limits, the artifact filter, re-verification and the threshold, with its own re-computed profit |
| Opportunities.FiltersCostNoHonestProfit | src/arbitrage/scanner.rs:229-342 | for honest pairs the direction skip only drops losses and the artifact filter drops nothing |
| Opportunities.RecheckMatchesEstimate | src/arbitrage/scanner_queries.rs:245-305 | between SOL pools the re-check is the estimate on the fresh bins less what the absolute cap holds back, so equal exactly when the returns are within that cap |
| Opportunities.UnchangedPoolIsConfirmedIff | src/arbitrage/scanner.rs:273-330 | a SOL pool that has not moved passes its re-check exactly when the absolute cap holds back at most half the estimated net |
| Opportunities.ScannedPassesCheckIff | src/main_loop.rs:160-184 | with the shared threshold and maximum a scanned opportunity passes the risk check exactly when the breaker does not block it and its net meets the threshold, which a safety factor up to 1 ensures |
| Route.SlippageTightensWithSize | src/executor/atomic/mod.rs:342-356 | the minimum-output ratio is at most 1 and never grows with the trade |
| Route.ShavedBelowEstimate | src/executor/atomic/builders_cpmm_wp.rs:76-93 | the minimum delivery is at most the estimated one |
| Route.SellMonotone | src/executor/atomic/generic_route.rs:470-502 | if a sale returns something, a larger sale succeeds and returns no less |
| Route.AcceptedRoutePays | src/executor/atomic/builders_cpmm_wp.rs:61-111 | an accepted route: the unchanged buy pool delivers the minimum, and any delivery from there up nets the threshold |
| Route.BuildersGuarantee | src/executor/atomic/builders_cpmm_wp.rs:205-262 | the same for all four builders, re-capped or not |
| Route.AcceptedIff | src/executor/atomic/builders_cpmm_wp.rs:76-111 | accepted exactly when both legs price and the minimum delivery nets the threshold plus what the cap held back |
| Risk.RiskTracker.constructor | src/risk/mod.rs:46-60 | a fresh tracker |
| Risk.RiskTracker.CheckLimits | src/risk/mod.rs:63-121 | the new state and answer are those of the specification function |
| Risk.RiskTracker.RecordSubmitted | src/risk/mod.rs:124-127 | counts one attempted and one pending trade, nothing else |
| Risk.RiskTracker.RecordConfirmation | src/risk/mod.rs:131-143 | books the result, saturating the pending count, then checks the breaker |
| Risk.RiskTracker.CheckCircuitBreaker | src/risk/mod.rs:145-156 | trips exactly when the day's loss exceeds the limit |
| Risk.OperationsKeepConsistent | src/risk/mod.rs:63-156 | trip time and reason are set exactly when the breaker is; a clear breaker means the day is within its limit |
| Risk.ProjectedLossNeverFires | src/risk/mod.rs:98-118 | with a positive threshold a check never trips; only a blocked breaker, a thin profit or an oversized investment refuses |
| Risk.ProjectedLossFiresIff | src/risk/mod.rs:63-121 | from any state, an unblocked check leaves the breaker set exactly on a clear breaker, an unchanged day, met thresholds and a day that would end beyond its limit, which no operation leaves |
| Confirmation.RemovesExactly | src/executor/confirmation.rs:201-204 | descending swap_remove takes out exactly the chosen entries, each once |
| Eviction.RemovalShape | src/executor/confirmation.rs:201-204 | entries not removed stay in place, and the k-th hole is filled by the k-th entry left behind the front |
| Eviction.FrontToBackTrapsIff | src/executor/confirmation.rs:201-204 | from front to back the removal would index past the end exactly when the last index plus the number of removals exceeds the size; otherwise it takes out the chosen entries too |
| Eviction.SplitIffSafe | src/executor/confirmation.rs:201-204 | on a queue in submission order exactly the safe removals leave the last entries younger than the others |
| Eviction.EvictionDropsOldestIff | src/executor/confirmation.rs:89-94 | after any removals on a queue in submission order, eviction drops only older entries exactly when it drops none or the removals were safe |
| Eviction.FewRemovalsDropOldestIff | src/executor/confirmation.rs:89-94 | for up to 64 removals that is: none, or the first one at or behind the first kept position |
| Eviction.NoRemovalDropsOldest | src/executor/confirmation.rs:89-94 | in particular without removals |
| Eviction.SwapRemoveEvictsNewest | src/executor/confirmation.rs:89-94 | any single removal in front of the last 64 positions makes eviction drop the newest entry and keep the one before it |
| Confirmation.ConfirmationTask.Collect | src/executor/confirmation.rs:58-60 | everything in the channel moves to the end of the queue, in order |
| Confirmation.ConfirmationTask.ProcessStatuses | src/executor/confirmation.rs:104-205 | the tracker records each processed status in order with the right result, and the queue loses exactly those indices |
| Confirmation.ConfirmationTask.RemoveProcessed | src/executor/confirmation.rs:201-204 | the reverse loop performs the descending removal |
| Confirmation.ConfirmationTask.EvictStale | src/executor/confirmation.rs:89-94 | above 128 entries the last 64 remain |
| Confirmation.PositionAligned | src/executor/confirmation.rs:62-66 | the k-th signature belongs to entry k exactly when the first k + 1 entries parse, otherwise to a later one |
| Confirmation.TouchesConfirmedIffAligned | src/executor/confirmation.rs:62-87 | the recorded entries are the confirmed ones exactly when every entry up to the last processed index parses |
| Confirmation.MisalignedEntryIsBookedTwice | src/executor/confirmation.rs:62-87 | otherwise a confirmation can be booked twice and another entry dropped unbooked |
| Protocol.StepKeepsQueue | src/executor/confirmation.rs:56-98 | every step of every interleaving keeps the account of where each trade is |
| Protocol.StepKeepsBreaker | src/main_loop.rs:177-184 | every step keeps the breaker invariant with its exposure bound |
| ProtocolSafety.ReachableInv | src/main_loop.rs:353-376 | all invariants hold in every reachable state |
| ProtocolSafety.TripExposure | src/risk/mod.rs:145-156 | the exposure in the loss bound is that of the state the latest trip happened in |
| ProtocolSafety.DailyLossBounded | src/risk/mod.rs:63-156 | the day's figure never falls below -(limit) with a clear breaker, nor below -(limit + L * exposure at the trip) with a set one |
| ProtocolSafety.TotalLossBounded | src/risk/mod.rs:63-156 | over a run the total is at least minus one such window per reset, and cooldown resets are at least 1800 s apart |
| ProtocolSafety.AcceptedCheckIsCooled | src/risk/mod.rs:63-86 | in every reachable state an accepted check is at least 1800 s after the latest trip, and no check trips |
| ProtocolSafety.EveryTradeInOnePlace | src/executor/confirmation.rs:56-98 | each submitted trade is in exactly one of channel, queue, recorded once, evicted |
| ProtocolSafety.CycleBoundsQueue | src/executor/confirmation.rs:89-94 | at most 128 entries after every cycle |
| ProtocolSafety.PendingCountsEvictedTrades | src/risk/mod.rs:124-132 | the tracker's pending count includes evicted trades for good |
| ProtocolLimits.CycleIsProcessAndEvict | src/executor/confirmation.rs:56-98 | an uninterrupted cycle of steps is what ProcessStatuses and EvictStale compute |
| ProtocolLimits.DailyLimitIsPerWindow | src/risk/mod.rs:63-78 | whatever a trade can lose, some run on one day with one trade exposed at a time and one cooldown loses more than the limit plus one trade |
| ProtocolLimits.EveryWindowCanLose | src/risk/mod.rs:63-78 | for every k, some run on one day with k cooldowns loses more than k + 1 times the limit |
| ProtocolLimits.HeldUntilReset | src/risk/mod.rs:63-156 | a run without cooldown or day reset loses at most the limit plus the largest loss per trade exposed |
| ProtocolLimits.HeldIffNothingToLose | src/risk/mod.rs:63-156 | every run without a new day is held to that bound exactly when no trade can lose anything |
| TickArrays.FloorDivIsTrueFloor | src/executor/atomic/generic_route.rs:401-409 | for every pair of 32-bit integers: no value exactly where the division traps, the floor of the true quotient elsewhere |
| TickArrays.ArraysTileIff | src/executor/atomic/generic_route.rs:370-398 | fallback exactly for no tick spacing; otherwise the three arrays tile the range and the first holds the current tick exactly when no start leaves 32 bits |
| TickArrays.ProtocolTicksAlwaysTile | src/executor/atomic/generic_route.rs:370-398 | inside the protocol's tick bounds they always do |
| BinArrays.I64RoundTrip | src/pool_cache/dlmm/bins.rs:33 | the array index survives its little-endian encoding, negative values included |
| BinArrays.ParseBinArrayData | src/pool_cache/dlmm/bins.rs:28-83 | appends the parsed bins to what the list held and changes nothing else |
| BinArrays.BinIdExactIff | src/pool_cache/dlmm/bins.rs:73 | a bin's id is index * 70 + i exactly when that fits 32 bits |
| BinArrays.TruncatedAccountYieldsPrefix | src/pool_cache/dlmm/bins.rs:28-83 | parsing a serialised array of either layout returns its bins; cut anywhere, exactly those whose amounts are inside |
| BinArrays.WindowHoldsActive | src/pool_cache/dlmm/bins.rs:206-215 | the window holds the active bin's array, in the middle exactly for ids where both divisions agree |
| BinArrays.WindowYieldsEachIdOnce | src/pool_cache/dlmm/bins.rs:206-215 | full arrays of a window list each id it spans exactly once in order, exactly when the ids fit 32 bits |
| BinFetch.FetchBinsFresh | src/pool_cache/dlmm/bins.rs:217-239 | cached arrays first in window order, then the missing ones from RPC; an RPC failure matters only if something is missing |
| BinFetch.FetchedIsWholeWindow | src/pool_cache/dlmm/bins.rs:217-239 | whatever the cache served, the bins are those of all the window's accounts |
| BinFetch.WindowIdsAreConsistent | src/pool_cache/dlmm/bins.rs:206-239 | arrays at their own addresses never give two bins one id, even where ids wrap |
| BinFetch.FreshEstimateIgnoresSource | src/pool_cache/dlmm/bins.rs:186-240 | traversal and estimate are the same whichever arrays came from the cache |

## Left out

- RPC, HTTP, WebSocket, gRPC, SQLite, logging, metrics and configuration loading; pool states, statuses, extracted balances, cache contents, clock and date are inputs.
- `f64` rounding and NaN: SOL amounts are exact reals, `1/phi` is any real r with r*r + r = 1, and `fee as f64 * 10000` is the integer basis-point fee.
- Fees above 100% in pricing: the original underflows there, so pricing requires at most 10000 bps (`FeeIsPriceableIff` says when the computed fee is).
- Bin totals above u64: monotonicity of the DLMM estimate requires the bins' output side to fit the u64 it is cast to.
- Dlmm.EstimateSwapOutputFull: the two bin counters are unbounded rather than u32, and the library sort is a stable insertion sort.
- Unimodal.SearchFindsPeak: takes the maximiser as given, since its closed form needs a square root; Unimodal.SearchKeepsBetter and SizingOptimality.SearchNearlyOptimal need none and speak of every investment.
- SizingOptimality.SearchNearlyOptimal: covers bins in falling price order only; for other orders the net need not be concave.
- Spread.GrossBoundedBySpread: covers pools priced by `raw_to_sol_per_token`, not stablecoin pools converted with an external SOL price.
- Spread.FilterKeepsHonestPairs: below one basis point neither direction is claimed between 10 and 10.001 SOL or above 100000 SOL, and nothing at a saturated u32 spread, which the scan rejects first.
- DlmmOrder.EstimateOrderFreeIff: the converse is stated where the bins' totals fit u64; beyond that the amount that would tell the order may not be expressible.
- Opportunities.RecheckMatchesEstimate: covers pools quoted in SOL; with a stablecoin side the original mixes units of 1e9 and 1e6.
- Opportunity fields copied unchanged from the caller (signature, slot, mint) and the debug report on outliers.
- Price discovery (`query_*`), pool discovery caches, whitelists, RPC pool, nonce and blockhash caches: I/O or simple map filters.
- Transaction and instruction assembly, address derivation, tips, and the legacy and pump/DLMM builders; arrays are identified by their index instead of a derived address.
- The on-chain handlers and orchestrator: routes are judged by what their pools pay, not by program code.
- The five-array fetches of the discovery path: the same loop as FetchBinsFresh with radius 2; the window lemmas cover both.
- Protocol: entries whose signature does not parse; the state machine pairs statuses with entries, which `TouchesConfirmedIffAligned` shows to need parseable signatures.
- Text of breaker reasons, per-trade metrics and latency counters.
