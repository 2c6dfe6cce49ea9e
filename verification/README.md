# Verified model of the trading engine's decision cores

The project models the parts of the trading system that decide things: how spot disposals are matched
for UK tax, how venue quotes become one consensus price, how capital and risk limits hold over time,
how withdrawals are approved, and three smaller algorithms (a lock-free queue, a rebalancing loop, a
correlation). Every part is proved for all inputs or all runs.

Code that changes things step by step is modelled by methods over arrays and by classes with the
source's fields. Each such method is proved equal to a specification function, and what the source
promises is proved about those functions, so that it holds of the loops.

| module | models |
|---|---|
| `TaxMatching`, `TaxAllocation`, `TaxConservation`, `TaxPriority`, `TaxPeriods`, `TaxReport`, `TaxCover`, `TaxPool` | HMRC share matching and the spot part of the tax report (`internal/taxuk`) |
| `Statistics`, `Pricing`, `Trust`, `CircuitBreaker`, `ConsensusEngine`, `ConsensusPublished` | the price consensus (`internal/consensus`) |
| `RingBuffer` | the lock-free ring buffer as atomic steps of one producer and one consumer (`internal/pipeline`) |
| `Rebalancer`, `Correlation` | the two-pointer rebalancing loop (`internal/inventory`) and the Pearson correlation (`internal/arb`) |
| `SlidingWindow`, `RateLimiter`, `RiskDaemon` | pruned event windows, and the order rate limit and the risk daemon that use them |
| `TransferScreen`, `TransferPolicy`, `TransferDecisions`, `TransferLimits`, `TransferExact` | the transfer policy: what a request is screened against, what is approved, held and released, the daily limits over runs, and exactly which configurations keep them (`internal/transfer`) |
| `OpenInterest`, `DynamicCap`, `Allocator`, `AllocatorCaps`, `AllocatorDecisions` | the capital allocator (`internal/allocator`) |
| `Sums`, `MapSums`, `Sorting` | arithmetic, sums over maps, and insertion sort |

Verify everything with `dafny verify dfyconfig.toml`.

## How the source is read

- A `float64` is a `real` and an `int64` an `int`; times are milliseconds. A square root is a function
  parameter of which only the defining property is used.
- Clock readings are inputs, one for each call; the clock of a run does not go back. Each locked method
  is one step.
- The order in which Go visits a map is an input or an arbitrary choice: the tax report, the map sums
  and the risk daemon choose keys arbitrarily, the consensus takes its feeds as a sequence, the
  transfer policy takes its pending identifiers as one.
- `sort.Slice` is not stable, so results about the tax matching and the rebalancing hold for any
  ordered permutation. `sort.Float64s`, of which only the sorted values matter, is insertion sort.
- Days are UTC days. A match names its acquisition by its position in time order.
- A walk of a book for a notional that is not positive needs prices that are not zero, as it divides
  by the price of the level it stops at.
- The tamper check of a transfer, and the system mode and quality of an allocation are inputs. Two
  texts are the same but for case when a function of characters, taken as given, makes them equal.
- A run is a sequence of calls; a log gives the states between them.

## What the proofs found

- From WARN, a clean observation does not clear the timer of the blacklist threshold, so two spikes
  blacklist a venue that was clean in between (`CircuitBreaker.SpikesBlacklistFromWarn`); nor does a
  spike restart the recovery (`CircuitBreaker.RecoveredFromWarn`).
- The venue gate of the allocator looks at one leg at a time, so two legs on one venue can exceed its
  cap (`AllocatorCaps.VenueCapsNeedDistinct`), and the open-interest multiplier is applied after the
  caps (`AllocatorCaps.StrategyCapsNeedBoost`). The comment on the multiplier promises 0.5 from half of
  the baseline and 0.25 below it; the code agrees, with a jump between them.
- Approvals bypass the daily transfer limits, and negative amounts make room under the daily amount
  and past it to the approval gate. The configurations that keep the limits all the same, by their
  gates, caps, limits and allowlist, are exactly those of `TransferExact.CountLimitExactly` and
  `TransferExact.AmountLimitExactly`. An allowlist entry's cap is
  ignored where there is no global cap and where it is above that, although the comment says that it
  overrides (`TransferScreen.EntryCapDecidesExactly`).
- A negative base trust survives normalisation. The policies without one are exactly those for which
  the weights of every round are shares, the mid lies between the quoted mids, and the consensus is
  not crossed (`ConsensusEngine.SharesExactly`, `ConsensusEngine.ConvexMidExactly`,
  `ConsensusEngine.UncrossedExactly`).
- A notional that buys less than the epsilon is quoted the penalty price (`Pricing.WorsensUnlessDust`).
- What the pool cannot give is exactly the deepest overdraft that the sales would run up
  (`TaxPool.WorstShortfall`); their proceeds are cut in proportion (`TaxPool.DisposalIs`).
- With a threshold of zero or less the rebalancing loop, once started, never ends
  (`Rebalancer.SettlesExactly`).
- The dynamic cap is never used above the configured one, and its cut for losing strategies never
  applies (`AllocatorCaps.DynamicCapOnlyLowers`, `DynamicCap.CapInRange`). The periodic decay of recent
  profit changes no cap by itself (`DynamicCap.DecayKeepsCaps`).
- A purchase in the 30 days after a disposal reaches back over a period's end
  (`TaxPeriods.ThirtyDaysReachBack`); two periods can be matched one after the other exactly when no
  sale left over from the first reaches a purchase left over in the second
  (`TaxPeriods.PeriodsSplitExactly`).

## Model

| member | source | states |
|---|---|---|
| `TaxMatching.Section104Pool.CostPerUnit` | internal/taxuk/types.go:53-58 | the weighted-average cost: with anything in the pool, the result times the quantity held is the cost held; zero for an empty pool |
| `TaxMatching.MatchPhase` | internal/taxuk/matching.go:62-122 | the in-place nested loops of the same-day phase and of the 30-day phase leave exactly the quantities and matches of the pass that the lemmas below are about |
| `TaxMatching.PoolPhase` | internal/taxuk/matching.go:124-152 | the in-place pool loop does the same to the quantities, the matches and the pool |
| `TaxMatching.BuildResult` | internal/taxuk/matching.go:156-189 | one disposal result: matched quantity, proceeds in proportion to it, cost, gain, first rule used, acquisitions matched |
| `TaxMatching.MatchSpotTrades` | internal/taxuk/matching.go:27-193 | for some time order of the trades (the sort is not stable) the results and the pool left in place are those of the three phases; without a pool it starts from an empty one |
| `TaxMatching.ScanStops` | internal/taxuk/matching.go:69-72 | leaving the inner loop when the disposal is exhausted changes nothing |
| `TaxAllocation.PassGivesDue` | internal/taxuk/matching.go:62-122 | the greedy loops equal a rule stated without loops: a disposal gets of an acquisition the lesser of what earlier acquisitions leave of the one and earlier disposals leave of the other, in order of acquisition; and exactly the rest is left |
| `TaxAllocation.RulesGiveDue` | internal/taxuk/matching.go:62-122 | sections 105 and 106A of TCGA 1992 in sequence: before the pool a disposal has its same-day due of all there was, then its 30-day due of what that left |
| `TaxConservation.Conservation` | internal/taxuk/matching.go:62-152 | for all trades in any order and any pool: opening pool plus purchases equals disposals plus closing pool, in units and, fees included, in pounds |
| `TaxConservation.PassKeeps` | internal/taxuk/matching.go:62-122 | a matching pass keeps every measure, of units or of pounds, that one of its matches balances |
| `TaxConservation.PoolPassKeeps` | internal/taxuk/matching.go:124-152 | the pool phase keeps units and pounds, and leaves no purchase unpooled |
| `TaxConservation.DrawKeepsAverage` | internal/taxuk/matching.go:141-150 | a draw never overdraws the pool, keeps its average cost, and takes the last pound with the last unit |
| `TaxConservation.PoolStaysProper` | internal/taxuk/matching.go:124-152 | after every trade the pool is not negative, and it holds no cost when it holds no quantity |
| `TaxPriority.NothingLeftToMatch` | internal/taxuk/matching.go:62-122 | after the 30-day pass no disposal and purchase both have quantity left when the purchase is of the same day or of the next 30 days |
| `TaxPriority.FirstComeFirstServed` | internal/taxuk/matching.go:62-122 | every same-day and 30-day match is one the rule allows, costs its quantity at the unit cost of the acquisition, and passes over no earlier acquisition or disposal that has anything left |
| `TaxPriority.PoolIsLastResort` | internal/taxuk/matching.go:124-152 | a disposal draws on the pool only if the purchases of its day and of the next 30 days are all matched in full |
| `TaxPriority.DayBalance` | internal/taxuk/matching.go:62-90 | both sides of a day: bought, and sold, is what remains plus what is matched under the same-day rule |
| `TaxPriority.SameDayInFull` | internal/taxuk/matching.go:62-90 | on every day exactly the lesser of the total bought and the total sold is matched under the same-day rule, whatever the later phases do |
| `TaxPeriods.RulesSplitExactly` | internal/taxuk/matching.go:62-122 | for B of later days than A, the same-day and 30-day rules match A and B together as they match each alone exactly when no sale that A leaves unmatched has, within 30 days, a purchase with anything left after B's own same-day matching |
| `TaxPeriods.PeriodSplitting` | internal/taxuk/matching.go:27-193 | under that condition matching A and B together gives A's disposals, then B's matched from the pool that A leaves, and the same final pool |
| `TaxPeriods.PeriodsSplitExactly` | internal/taxuk/matching.go:27-193 | where the trades of B have ids of their own, the disposals of A and B together are those of A followed by those of B from the pool that A leaves exactly under that condition |
| `TaxPeriods.SplitOrder` | internal/taxuk/matching.go:35-40 | any time order of two separate periods is an order of the first followed by an order of the second |
| `TaxPeriods.PeriodsInAnyOrder` | internal/taxuk/matching.go:27-193 | period splitting for whatever order the unstable sort leaves, when B buys nothing within 30 days of a disposal in A |
| `TaxPeriods.ThirtyDaysReachBack` | internal/taxuk/matching.go:99-110 | a concrete sale and repurchase 30 days apart for which splitting between them changes the final pool |
| `TaxReport.SymbolCashFlow` | internal/taxuk/matching.go:154-190 | the gain of one symbol whose disposals are fully matched is net sale proceeds minus purchase cost minus opening plus closing pool cost |
| `TaxReport.CashFlowInAnyOrder` | internal/taxuk/report.go:56-65 | a symbol's cash flow does not depend on the order of its trades |
| `TaxReport.VisitsCashFlow` | internal/taxuk/report.go:56-79 | summed over all symbols, in the order they are visited |
| `TaxReport.LeftIs` | internal/taxuk/report.go:56-65 | each symbol's pool is left as its own matching closed it and no other pool changes |
| `TaxReport.PartitionSpot` | internal/taxuk/report.go:39-54 | the partition has exactly the symbols with spot trades, each with exactly its spot trades in order |
| `TaxReport.AddGains` | internal/taxuk/report.go:72-79 | gains and losses are non-negative, and their difference is the sum of all signed gains |
| `TaxReport.MatchSymbol` | internal/taxuk/report.go:58-64 | a symbol without a pool gets a new one; the pool is updated in place and the other pools are untouched |
| `TaxReport.GenerateReport` | internal/taxuk/report.go:39-79 | the spot part of the report: disposals sorted by date, pools updated in place, and the net gain equal to the cash flow over all symbols when every disposal is fully matched |
| `TaxCover.NeedIsCovered` | internal/taxuk/matching.go:62-122 | of a sale that still needs the pool no purchase before it was matched with a later disposal, so what the opening pool and those purchases hold covers it |
| `TaxCover.NeverShort` | internal/taxuk/matching.go:62-152 | if in time order no sale exceeds what the opening pool and the purchases before it leave of earlier sales, every disposal is fully matched |
| `TaxCover.CoveredCashFlow` | internal/taxuk/report.go:56-79 | so the net gain over all symbols never sold short is their cash flow |
| `TaxPool.PoolGivesDue` | internal/taxuk/matching.go:124-152 | the pool phase gives every sale exactly the lesser of what the rules leave of it and what the opening pool and the purchases and sales before it leave in the pool, at the average cost of that, even where the pool holds less than is needed; and holds what that comes to |
| `TaxPool.AllRulesGiveDue` | internal/taxuk/matching.go:62-152 | the final matches of a sale, all three rules in sequence, and the closing pool, stated without any of the passes |
| `TaxPool.WorstShortfall` | internal/taxuk/matching.go:136-150 | together the sales are left short of exactly the deepest overdraft that there would be if the pool gave without limit |
| `TaxPool.FullyMatchedExactly` | internal/taxuk/matching.go:62-152 | every disposal is matched in full exactly when the opening pool and what the rules leave of the purchases cover, at every point in time order, what they leave of the sales |
| `TaxPool.DisposalIs` | internal/taxuk/matching.go:154-190 | one disposal for each sale in time order: quantity and cost as the three rules give them, proceeds in proportion to the quantity matched, the gain, the first rule that gives anything, and the acquisitions matched in order |
| `TaxPool.EligibleExactly` | internal/taxuk/matching.go:75-110 | a purchase is eligible exactly when it is of the UTC day of the sale, or of one of the 30 days after it |
| `Sorting.InsertionSort` | internal/pipeline/latency.go:172-183 | sorts the array in place, stably: the result is that of inserting the elements one by one |
| `Sorting.SortSorts` | internal/pipeline/latency.go:172-183 | which is an ordered permutation of them |
| `Statistics.Median` | internal/consensus/math.go:10-22 | the middle of the sorted values, or the mean of the middle two; zero of none |
| `Statistics.Percentile` | internal/consensus/math.go:24-46 | the value at the interpolated rank, with the ends for p at or beyond 0 and 100 |
| `Statistics.MAD` | internal/consensus/math.go:55-62 | the median of the distances from the median |
| `Statistics.MajorityMedian` | internal/consensus/math.go:10-22 | with a strict majority of the values in [a, b] the median is in [a, b], whatever the others are |
| `Statistics.MajorityExactly` | internal/consensus/math.go:10-22 | of n values, k in [a, b] hold the median there whatever all of them are exactly when 2k > n |
| `Statistics.SortedDominates` | internal/consensus/math.go:29-31 | pointwise dominance carries through sorting |
| `Statistics.PercentileDominates` | internal/consensus/math.go:24-46 | and through the interpolated percentile |
| `Statistics.PercentileMonotone` | internal/consensus/math.go:24-46 | the percentile rises with p |
| `Statistics.MADNonnegative` | internal/consensus/math.go:55-62 | the deviation is never negative, so the z-score divides by a positive number |
| `Statistics.DeviationBounded` | internal/consensus/math.go:48-53 | two prices in [a, b] with a > 0 deviate by at most 10000 (b - a) / a basis points |
| `Statistics.MedianIs` | internal/consensus/math.go:10-22 | twice the median of values in order is the sum of the two in the middle, which are one for an odd number |
| `Statistics.MedianPermuted` | internal/consensus/math.go:10-22 | and the median does not depend on the order |
| `Statistics.MADIs` | internal/consensus/math.go:55-62 | the deviation is the median of the distances from the median |
| `Statistics.PercentileInterpolates` | internal/consensus/math.go:24-46 | of values in order the percentile lies on the line between the two neighbours of its rank |
| `Statistics.PercentilePermuted` | internal/consensus/math.go:24-46 | and does not depend on the order |
| `Statistics.PercentileEnds` | internal/consensus/math.go:32-37 | at 0 and below it is the least value, at 100 and above the greatest |
| `Statistics.DeviationOver` | internal/consensus/math.go:48-53 | a deviation is over a limit exactly when 10000 times the distance is over the limit times the reference |
| `Statistics.SpreadOver` | internal/consensus/math.go:68-74 | a spread is over a limit exactly when 10000 times the difference is over the limit times the mid |
| `Pricing.ComputeVwapBuy` | internal/consensus/price.go:25-48 | walks the asks: the average price and true, or the penalty price and false; for a positive notional whatever the prices, since a level worth nothing is passed over |
| `Pricing.ComputeVwapSell` | internal/consensus/price.go:50-73 | walks the bids in the same way |
| `Pricing.WalkSpends` | internal/consensus/price.go:26-42 | what is spent and what is left over add up to the notional, and nothing is left over exactly when the book has the depth |
| `Pricing.QuotedComplete` | internal/consensus/price.go:43-47 | a fill is reported complete exactly when the book has the depth and the size is more than dust, and then its total cost equals the notional |
| `Pricing.AverageWorsens` | internal/consensus/price.go:26-42 | between complete fills of a sorted book the average price only worsens with the notional |
| `Pricing.AverageNoBetter` | internal/consensus/price.go:26-47 | in whatever order the levels come, a complete fill's average is no better than any price that no level beats |
| `Pricing.AverageWithin` | internal/consensus/price.go:26-47 | in a sorted book a complete fill's average is no worse than its last level, and no better than any price that no level beats |
| `Pricing.VwapMonotone` | internal/consensus/price.go:25-73 | the price quoted only worsens with the notional, from any that buys more than dust, up to and beyond the depth of the book, the jump to the penalty price included |
| `Pricing.WorsensUnlessDust` | internal/consensus/price.go:43-47 | with a penalty, the price worsens from one notional to a greater one exactly when the lesser buys more than the epsilon or the greater is not filled: dust is quoted the penalty price |
| `Pricing.BookWalked` | internal/consensus/price.go:26-42 | what a walk buys is, level by level, what the levels before leave of the notional up to what the level is worth, at its price; what remains is what exceeds the whole book |
| `Pricing.QuoteIs` | internal/consensus/price.go:25-73 | the price quoted for a positive notional: times what is bought it is the notional, if the book is worth that and gives more than dust; else it is the last level's price, worse by the penalty |
| `Pricing.VwapNoBetter` | internal/consensus/price.go:25-73 | in whatever order the levels come, no quote beats a price that no level beats |
| `Pricing.BuyAboveMid` | internal/consensus/price.go:9-15 | with every level and quote on its side of mid, in any order, the buy price with fees is at least mid |
| `Pricing.SellBelowMid` | internal/consensus/price.go:17-23 | and the sell price with fees is at most mid |
| `Trust.ComputeTrust` | internal/consensus/trust.go:12-38 | applies the penalties one after another |
| `Trust.TrustRange` | internal/consensus/trust.go:12-38 | of a positive base, trust lies between zero and the base, and is zero exactly for a blacklisted venue |
| `Trust.TrustFalls` | internal/consensus/trust.go:12-38 | a venue worse in some respect (outlier, state, staleness, spread) and better in none is never trusted more |
| `Trust.CleanTrust` | internal/consensus/trust.go:12-38 | without penalties the trust is the base trust |
| `Trust.OutlierCosts` | internal/consensus/trust.go:17-21 | whatever the other penalties, an outlier keeps a tenth of what it would have otherwise, a hard one a twentieth |
| `Trust.WarningCosts` | internal/consensus/trust.go:22-24 | a warned venue keeps three fifths |
| `Trust.StalenessCosts` | internal/consensus/trust.go:25-31 | staleness over half the threshold costs three fifths of the part of the threshold that it is, at most three fifths |
| `Trust.SpreadCosts` | internal/consensus/trust.go:32-36 | a spread over 10 basis points costs a fifth, one over 25 three tenths |
| `Trust.NormalizeTrust` | internal/consensus/trust.go:40-57 | normalises in two loops |
| `Trust.TrustSigns` | internal/consensus/trust.go:12-38 | of any base but zero, trust is zero exactly for a blacklisted venue and else has the sign of the base |
| `Trust.NormalizedSigns` | internal/consensus/trust.go:40-57 | a normalised weight is positive, or zero, exactly where the raw one is, unless the trust is negligible, when all are zero |
| `Trust.NormalizedShares` | internal/consensus/trust.go:40-57 | the weights are non-negative and sum to one exactly when no raw weight is negative, given more than negligible trust; else they are all zero |
| `Trust.NormalizedInProportion` | internal/consensus/trust.go:40-57 | unless the trust is negligible the weights are in proportion to the raw ones |
| `Trust.WeightedWithin` | internal/consensus/engine.go:192-198 | a weighted sum lies between any bounds on the values that carry weight |
| `Trust.ConvexExactly` | internal/consensus/engine.go:192-198 | weighted sums stay within such bounds, whatever the values, exactly for non-negative weights that sum to one |
| `Trust.OrderExactly` | internal/consensus/engine.go:192-198 | and keep the order of values exactly for non-negative weights |
| `CircuitBreaker.TimersStayTrue` | internal/consensus/circuitbreaker.go:29-89 | over any run each timer holds the time of the first observation of its unbroken stretch |
| `CircuitBreaker.BlacklistedFromOK` | internal/consensus/circuitbreaker.go:29-38 | a venue in OK is blacklisted exactly when an unbroken stretch of observations over the blacklist threshold, all in OK, has lasted the persist time |
| `CircuitBreaker.WarnedFromOK` | internal/consensus/circuitbreaker.go:39-57 | a venue in OK is warned exactly when the observation is between the thresholds and an unbroken stretch over the warning threshold, counted from one not over the other, has lasted |
| `CircuitBreaker.BlacklistedFromWarn` | internal/consensus/circuitbreaker.go:63-89 | a venue in WARN is blacklisted exactly when the first observation over the blacklist threshold since the last one between the thresholds is a persist time ago |
| `CircuitBreaker.SpikesBlacklistFromWarn` | internal/consensus/circuitbreaker.go:73-76 | so two spikes blacklist a warned venue that was clean in between: the timer is not cleared there |
| `CircuitBreaker.BlacklistExpires` | internal/consensus/circuitbreaker.go:17-27 | a blacklisted venue is let back into WARN by exactly the observations a blacklist time or more after the one that blacklisted it |
| `CircuitBreaker.RecoveredFromWarn` | internal/consensus/circuitbreaker.go:73-88 | a venue in WARN is OK again exactly when the observation is clean and the recovery time has passed since the first clean one, or the end of the blacklisting, with none between the thresholds since; spikes over the blacklist threshold do not restart it |
| `CircuitBreaker.BlacklistLasts` | internal/consensus/circuitbreaker.go:16-27 | from entering BLACKLISTED to the next OK takes at least the blacklist time plus the recovery time |
| `CircuitBreaker.CloseStaysOK` | internal/consensus/circuitbreaker.go:58-61 | a venue in OK that is never over the warning threshold stays OK |
| `CircuitBreaker.AnomalyMarks` | internal/consensus/circuitbreaker.go:17-89 | an anomaly is reported exactly when a venue is newly warned or newly blacklisted; the reason names the last change of state, and the timestamps say when the warning began and when the blacklisting expires |
| `ConsensusEngine.Compute` | internal/consensus/engine.go:20-252 | the whole computation, with its loops, gives the weights, venue metrics, statuses and consensus of the model |
| `ConsensusEngine.CheckStale` | internal/consensus/engine.go:31-51 | the pause is taken exactly when it is configured and every quote is stale |
| `ConsensusEngine.RawTrustSigns` | internal/consensus/engine.go:140-153 | for every policy, a raw trust is zero exactly for a blacklisted venue and else has the sign of its base trust |
| `ConsensusEngine.WeightsAreShares` | internal/consensus/engine.go:179-182 | for every policy: the trust is negligible and all weights are zero, or exactly the blacklisted venues weigh zero, and the weights are non-negative and sum to one exactly when no other venue has a negative base trust |
| `ConsensusEngine.SharesExactly` | internal/consensus/engine.go:140-182 | with thresholds that are not negative: over all rounds and statuses the weights are always shares or all zero exactly for the policies that configure no negative base trust |
| `ConsensusEngine.MidIsConvex` | internal/consensus/engine.go:192-198 | in a round where no venue but a blacklisted one has a negative base trust, the published mid lies within the mids of the venues that carry weight |
| `ConsensusEngine.ConvexMidExactly` | internal/consensus/engine.go:192-198 | with thresholds that are not negative, it does in all rounds exactly for the policies that configure no negative base trust |
| `ConsensusEngine.ConsensusUncrossed` | internal/consensus/engine.go:192-198 | in such a round SellExec <= Mid <= BuyExec whenever every level is on its side of its venue's mid and fees and slippage are in range |
| `ConsensusEngine.UncrossedExactly` | internal/consensus/engine.go:192-198 | with thresholds that are not negative and a positive notional, it does in all rounds of such quotes exactly for the policies that configure no negative base trust |
| `ConsensusEngine.BandInOrder` | internal/consensus/engine.go:200-228 | for every policy, BandLow <= BandHigh when each effective sell is at most the effective buy and no mid is negative |
| `ConsensusEngine.MajorityRound` | internal/consensus/engine.go:85-107 | in a round where a strict majority of mids agrees within the warning threshold, the median is with them and none of them leaves OK |
| `ConsensusEngine.MajorityStaysOK` | internal/consensus/engine.go:98-107 | over any rounds, whatever the minority quotes, a venue that starts OK and stays with the majority is always OK |
| `ConsensusPublished.EffectivePrices` | internal/consensus/engine.go:53-83 | the mid, the fees on top of the executable prices, the half spread or slippage charged without a book, and when the depth is insufficient |
| `ConsensusPublished.PublishedBalance` | internal/consensus/engine.go:192-198 | in a round of trusted venues mid, BuyExec and SellExec are exactly the points at which the venues' mids, effective buys and effective sells balance in their weights |
| `ConsensusPublished.ExecutablesAreConvex` | internal/consensus/engine.go:192-198 | any bounds on the effective sells of the venues that carry weight bound SellExec, and any on their effective buys bound BuyExec |
| `ConsensusPublished.SoleVenue` | internal/consensus/engine.go:192-198 | a venue that alone carries weight has its own mid, effective buy and effective sell published |
| `ConsensusPublished.BaseTrustIs` | internal/consensus/engine.go:140-144 | the base trust is what is configured, or one twentieth where that is nothing |
| `ConsensusPublished.RawTrustIs` | internal/consensus/engine.go:109-177 | the raw trust is the base trust, 0.05 where none is configured, under the penalties for the distance from the median, the spread, the age of the last message and the state after the round; the flags name the same conditions |
| `ConsensusPublished.PausedExactly` | internal/consensus/engine.go:31-51 | nothing is published exactly when the pause is configured and every quote is that old |
| `ConsensusPublished.QualityExactly` | internal/consensus/engine.go:254-269 | HIGH exactly with four core venues in good standing and none under warning, else MED exactly with as many core venues as the quorum |
| `ConsensusPublished.CarryingExactly` | internal/consensus/engine.go:200-207 | the band is drawn over the value of every venue of positive weight, once |
| `ConsensusPublished.BandExactly` | internal/consensus/engine.go:200-228 | the band reaches from the lower quartile of the carried sells to the upper one of the carried buys, and beyond both by 50, 25, 10 or no basis points of mid for fewer than two, two, three or more core venues |
| `ConsensusPublished.StatusesFollowBreaker` | internal/consensus/engine.go:98-153 | over any rounds the status kept of a venue is that of the circuit breaker run over the deviations of its mids from the median |
| `RingBuffer.WriteIsSafe` | internal/pipeline/latency.go:263-274 | in every state of every interleaving, a producer about to write never hits the slot of an unread item |
| `RingBuffer.NoRace` | internal/pipeline/latency.go:263-289 | the two sides are never about to access the same slot |
| `RingBuffer.NextKeeps` | internal/pipeline/latency.go:263-289 | every atomic step of either side keeps the invariant |
| `RingBuffer.StepRefines` | internal/pipeline/latency.go:263-289 | every atomic step is an operation of a bounded FIFO queue, a refusal, or nothing |
| `RingBuffer.PushAnswer` | internal/pipeline/latency.go:263-274 | Push answers false exactly when the queue was full at the step that loaded the tail |
| `RingBuffer.PopAnswer` | internal/pipeline/latency.go:277-289 | Pop answers false exactly when the queue was empty at the step that loaded the head |
| `RingBuffer.PushCompletes` | internal/pipeline/latency.go:263-274 | a call to Push that is not interrupted is over after three steps and has added its item if there was room |
| `RingBuffer.PopCompletes` | internal/pipeline/latency.go:277-289 | a call to Pop that is not interrupted is over after three steps and has taken the oldest item if there was one |
| `RingBuffer.RunRefines` | internal/pipeline/latency.go:263-289 | every interleaving is a run of the bounded queue |
| `RingBuffer.FirstInFirstOut` | internal/pipeline/latency.go:263-289 | at every point what has been popped is a prefix of what has been pushed, and at most the capacity is held |
| `RingBuffer.Buffer.Push` | internal/pipeline/latency.go:263-274 | called on its own: appends, or refuses exactly when full |
| `RingBuffer.Buffer.Pop` | internal/pipeline/latency.go:277-289 | called on its own: removes the oldest, or refuses exactly when empty |
| `Rebalancer.Rebalance` | internal/inventory/balancer.go:145-177 | the in-place two-pointer loop, from any start from which it ends, leaves the deviations and moves of the model |
| `Rebalancer.StartHasPair` | internal/inventory/balancer.go:143-153 | in whatever order equal deviations are sorted, the loop starts exactly when one venue is over and another under by the threshold |
| `Rebalancer.RebalanceTowardTarget` | internal/inventory/balancer.go:132-177 | the same as Rebalance after sorting, for any order of equal deviations |
| `Rebalancer.StepSums` | internal/inventory/balancer.go:155-170 | a pass conserves the sum of the deviations and lowers the total over-allocation by at least half the threshold |
| `Rebalancer.StepDecreases` | internal/inventory/balancer.go:147-177 | so the number of passes left, by that measure, falls |
| `Rebalancer.RunConserves` | internal/inventory/balancer.go:145-177 | a run conserves the sum and changes the sign of no deviation |
| `Rebalancer.RunPays` | internal/inventory/balancer.go:160-170 | every move is paid for with half a threshold of over-allocation, which bounds how many there can be |
| `Rebalancer.RunMoves` | internal/inventory/balancer.go:160-167 | every move is from a venue that was over by the threshold to one that was under by it |
| `Rebalancer.RunFlows` | internal/inventory/balancer.go:155-170 | where the transfer limits do not bind, the dollars moved out of a venue, net, are exactly the share of equity taken off its deviation |
| `Rebalancer.PassIs` | internal/inventory/balancer.go:147-177 | each pass brings both ends closer by half of the smaller deviation, by a move of the dollars of that half unless a limit binds, and of the least or the greatest transfer if one does |
| `Rebalancer.RunIsPasses` | internal/inventory/balancer.go:147-177 | and a run is its passes up to the first that would not go on |
| `Rebalancer.RunCloses` | internal/inventory/balancer.go:145-177 | no venue between the pointers is left behind: those passed on the left are no longer over, those on the right no longer under |
| `Rebalancer.OneSideSettled` | internal/inventory/balancer.go:145-177 | on exit no venue is over by the threshold or no venue is under by it |
| `Rebalancer.NeverSettles` | internal/inventory/balancer.go:147-177 | with a threshold of zero or less no pass moves a pointer, and a loop that has started never ends |
| `Rebalancer.SettlesExactly` | internal/inventory/balancer.go:147-177 | from any state the loop ends exactly when the threshold is positive or the loop does not start |
| `Correlation.PearsonCorrelation` | internal/arb/correlation.go:295-315 | the accumulator loop gives covariance over the root of the product of variances, zero for short, unequal or constant series |
| `Correlation.VarianceNonnegative` | internal/arb/correlation.go:310 | both factors under the root are non-negative, and zero exactly for a constant series |
| `Correlation.CauchySchwarz` | internal/arb/correlation.go:309-310 | the numerator squared is at most their product |
| `Correlation.CauchySchwarzEquality` | internal/arb/correlation.go:309-310 | with equality exactly when the second series is constant or the first is a line in it |
| `Correlation.PearsonInRange` | internal/arb/correlation.go:295-315 | so for all series the result is in [-1, 1] |
| `Correlation.PearsonExtreme` | internal/arb/correlation.go:295-315 | it is 1 exactly when one series is a rising line of the other, -1 exactly when a falling one |
| `Correlation.CovarianceCentred` | internal/arb/correlation.go:309 | the numerator is n times the sum of the products of the distances from the means |
| `Correlation.PearsonIs` | internal/arb/correlation.go:309-315 | the result has the sign of the covariance, and its square times both variances is the square of the covariance; it is zero for short, unequal or constant series |
| `SlidingWindow.PruneOlderThan` | internal/execution/paper.go:328-333 | the pruning loop shared by the rate limiter, the risk daemon and the transfer policy |
| `SlidingWindow.PruneFilters` | internal/risk/daemon.go:472-478 | pruning the front of an ordered list is filtering all of it |
| `SlidingWindow.PrunedHistory` | internal/risk/daemon.go:472-478 | a list pruned before prunes to what the full history holds since the new cutoff |
| `SlidingWindow.WindowIsRecent` | internal/execution/paper.go:327-334 | a closed window holding now has no more in it than the window of that length that ends now, in number or in non-negative amounts |
| `RateLimiter.OrderLimiter.TryAcquireOrderSlot` | internal/execution/paper.go:324-339 | prunes, then refuses or records |
| `RateLimiter.RunHolds` | internal/execution/paper.go:324-339 | what the limiter holds is always the full grant history of the minute up to the last call |
| `RateLimiter.RefusedExactly` | internal/execution/paper.go:334-336 | under a non-decreasing clock a call is refused exactly when the full grant history already has the limit in [now - 60000, now] |
| `RateLimiter.WindowBound` | internal/execution/paper.go:324-339 | no closed window of 60,000 ms, wherever it starts, holds more grants than the limit |
| `TransferScreen.CheckRegionConstraints` | internal/transfer/policy.go:328-376 | blocks exactly when either venue blocks the requester's region or the destination blocks the region of the source, the last entry of a venue counting |
| `TransferScreen.FindAllowlistEntry` | internal/transfer/policy.go:380-388 | finds the first entry for the address and the asset |
| `TransferScreen.LookUpFindsFirst` | internal/transfer/policy.go:380-388 | an entry is found exactly when it is that of the first in the list that lists the transfer |
| `TransferScreen.ScreenTransfer` | internal/transfer/policy.go:57-99 | the gates on the configuration, the regions, the allowlist, the cap and the cooloff in order, the first that fails deciding; none of them changes anything |
| `TransferScreen.UsedExactly` | internal/transfer/policy.go:380-388 | an entry decides for some transfer exactly when none before it lists all that it lists |
| `TransferScreen.ScreenedIsUsed` | internal/transfer/policy.go:67-85 | whatever passes these gates is listed by such an entry and within its cap |
| `TransferScreen.EntryCapDecidesExactly` | internal/transfer/policy.go:77-85 | an allowlist entry's own cap decides, whatever the amount, exactly when it is set and not above the global cap; the comment says that it overrides that cap |
| `TransferDecisions.RegionBlockedExactly` | internal/transfer/policy.go:328-376 | a region is blocked exactly when the last entry of either venue blocks the requester's region, or that of the destination blocks the region of that of the source |
| `TransferDecisions.CaseDoesNotMatter` | internal/transfer/policy.go:328-388 | requests that differ in case only are screened alike |
| `TransferDecisions.RefusalExplained` | internal/transfer/policy.go:57-99 | what the screening refuses a request for is true of it, the earlier gates first |
| `TransferPolicy.Engine.CheckTransfer` | internal/transfer/policy.go:49-177 | the gates in order, the first that fails deciding; only then pruning, holding or recording |
| `TransferPolicy.Engine.ApproveTransfer` | internal/transfer/policy.go:182-274 | unknown, expired, duplicate and self approvals are refused; enough approvals record the transfer and drop it from the pending ones |
| `TransferPolicy.Engine.DenyPendingTransfer` | internal/transfer/policy.go:277-304 | drops the pending transfer |
| `TransferPolicy.Engine.ListPendingTransfers` | internal/transfer/policy.go:307-322 | drops exactly the expired ones and lists the rest |
| `TransferPolicy.PendingAlwaysSound` | internal/transfer/policy.go:182-274 | over any run every pending transfer was asked for by a check and has been signed since, in time, by distinct operators other than the requester, and by too few |
| `TransferPolicy.ApprovedBySigners` | internal/transfer/policy.go:182-274 | every transfer that Approve approves has as many distinct signers as it needs, none the requester, each after the check and before expiry |
| `TransferPolicy.EveryTransferScreened` | internal/transfer/policy.go:57-102 | over any run every transfer approved, at once or after signatures, is for the address and the amount of a check that found the configuration untouched, and at which the configured regions blocked nothing, and the first configured allowlist entry for the address and asset had the amount within its cap and the address past its cooloff |
| `TransferDecisions.CheckDecidesExactly` | internal/transfer/policy.go:57-177 | over any run a check approves by itself exactly when the request is cleared, all that was approved in the last 24 hours leaves room, the amount is below the threshold for two and the manual flag is off; it holds the request exactly when one of these two holds it |
| `TransferDecisions.SignersNeeded` | internal/transfer/policy.go:120-142 | every transfer approved after it was held carries the timely signatures of two operators other than the requester if its amount reaches the threshold, whatever the manual flag, and else of one, under that flag |
| `TransferDecisions.SignatureDecidesExactly` | internal/transfer/policy.go:182-274 | a signature releases exactly a transfer that is pending and in time, by an operator who neither asked for it nor has signed it, as the last one needed; and what it is refused for is true |
| `TransferDecisions.ReportsMatch` | internal/transfer/policy.go:49-177 | a check reports how many sign-offs a held transfer waits for, two or one, and a denial whether there was anything to deny |
| `TransferDecisions.OneSignatureReleases` | internal/transfer/policy.go:182-274 | over any run a held transfer that needs one signature is released by the first one in time |
| `TransferDecisions.TwoSignaturesRelease` | internal/transfer/policy.go:182-274 | one that needs two stays pending after the first and is released by another operator's in time |
| `TransferDecisions.NeverAgain` | internal/transfer/policy.go:182-322 | once a transfer is denied, released or found expired, no signature finds it until it is asked for again |
| `TransferPolicy.HistoryAlwaysTrue` | internal/transfer/policy.go:390-397 | over any run the history is the full list of approved transfers since the last pruning |
| `TransferLimits.OnlyChecksApprove` | internal/transfer/policy.go:120-158 | in a run for which no held transfer can come to be approved (no gate, or no allowlist entry in use whose cap leaves an amount that a gate holds, or approvals that expire at once) only checks approve |
| `TransferLimits.DailyLimits` | internal/transfer/policy.go:101-117 | such a run keeps the daily count in every closed window of 24 hours, and the daily amount too if requests are not negative, or if the room that negative ones make is harmless |
| `TransferLimits.DailyLimitsWithoutGates` | internal/transfer/policy.go:101-117 | with both gates off every run keeps the daily count, and every run of non-negative requests the daily amount |
| `TransferExact.ManyAtOnce` | internal/transfer/policy.go:238-257 | whatever the configuration, any number of held transfers can be approved at one moment, since Approve does not look at the daily limits; it needs one allowlist entry in use and an amount within its cap that a gate holds |
| `TransferExact.CountLimitExactly` | internal/transfer/policy.go:104-108 | over all runs, and over those without negative requests, the daily count is kept exactly by the configurations in which no held transfer can come to be approved, in particular all that list nothing; with negative requests that is fewer, as one lets an amount past the daily limit to a gate |
| `TransferExact.AmountLimitExactly` | internal/transfer/policy.go:110-117 | the daily amount is kept exactly by those configurations and, over runs with negative requests, only if manual approval is required, the daily count is one, or for every allowlist entry in use one less than the count times the greatest amount that a check approves for it is within the daily amount |
| `TransferExact.AmountLimitNeedsNonnegative` | internal/transfer/policy.go:110-117 | with no other limit, and requests of at least m, the daily amount is kept exactly when m is not negative or nothing is listed |
| `RiskDaemon.CountBlacklisted` | internal/risk/daemon.go:190-196 | counts the venues whose blacklisting has not expired |
| `RiskDaemon.MaxADLRisk` | internal/risk/daemon.go:397-405 | the highest reading, or zero |
| `RiskDaemon.Escalate` | internal/risk/daemon.go:209-284 | the trigger blocks one after another lead to the mode and the alerts that the breached thresholds call for |
| `RiskDaemon.Annotate` | internal/risk/daemon.go:286-391 | the playbook blocks activate and tag what the breached triggers call for |
| `RiskDaemon.TagsComplete` | internal/risk/daemon.go:286-375 | every alert raised ends with the playbook of its trigger |
| `RiskDaemon.WarningsExplainPauses` | internal/risk/daemon.go:243-279 | a warning is raised exactly when the evaluation pauses the system, it is the last and only one, and its value is at its threshold or over it |
| `RiskDaemon.CriticalsExplainSafe` | internal/risk/daemon.go:211-241 | a critical alert is raised exactly when a safe-mode threshold is breached outside FLATTEN and HALTED |
| `RiskDaemon.Daemon.Evaluate` | internal/risk/daemon.go:167-393 | prunes, measures, escalates and annotates; in FLATTEN and HALTED only the first two |
| `RiskDaemon.Daemon.RecordFill` | internal/risk/daemon.go:93-109 | records the fill, the error and the equity, then evaluates |
| `RiskDaemon.OnlyOperatorsLower` | internal/risk/daemon.go:203-207 | over any run, between two calls of SetMode the mode never falls, and FLATTEN and HALTED never change |
| `RiskDaemon.MeasuredFromRun` | internal/risk/daemon.go:171-201 | after every evaluation what is measured is what the calls of the run alone determine: windows of all fills, errors and deleveragings, the highest equity and the last, the last reading of each venue, the last cluster count |
| `RiskDaemon.ModeMeetsHistory` | internal/risk/daemon.go:200-284 | and the mode is exactly the higher of the one before and the one that these, and the last blacklisting of each venue, demand: safe mode or a pause for drawdown when 100 times the loss from the peak reaches the configured percentage times the peak, a pause for errors when 100 times the errors reach it times the fills of five minutes |
| `RiskDaemon.PeakIsHighest` | internal/risk/daemon.go:103-106 | the peak is the highest equity ever held, over fills in any mode |
| `RiskDaemon.DrawdownNonnegative` | internal/risk/daemon.go:183-188 | so the drawdown is never negative |
| `RiskDaemon.ListsAreWindows` | internal/risk/daemon.go:171-175 | after every evaluation the three pruned lists are the full history filtered to their windows |
| `RiskDaemon.ErrorRateTrue` | internal/risk/daemon.go:177-182 | the published error rate is that of the fills of the last five minutes, and lies in [0, 100] |
| `RiskDaemon.PlaybooksCover` | internal/risk/daemon.go:286-391 | after an evaluation every breached trigger has its playbook, and none that was active is lost |
| `RiskDaemon.PlaybooksDistinct` | internal/risk/daemon.go:448-456 | in no run is a playbook active twice |
| `RiskDaemon.AlertsExactly` | internal/risk/daemon.go:209-284 | exactly the alerts of the breached thresholds are raised, each once, with its value, threshold and playbook: every safe-mode one, and where none is breached and the system runs, the first pause one |
| `RiskDaemon.AlertsMeetHistory` | internal/risk/daemon.go:167-284 | and over any run those that its measurements and its blacklistings call for |
| `RiskDaemon.PlaybooksExactly` | internal/risk/daemon.go:286-391 | an evaluation adds exactly the playbooks of the breached triggers that have none yet, with their target modes and times |
| `RiskDaemon.ResolvedExactly` | internal/risk/daemon.go:407-456 | listing drops exactly those past the time they resolve in, and resolving the one named |
| `RiskDaemon.OperatorsDecide` | internal/risk/daemon.go:407-470 | SetMode sets the mode that is asked for, and listing and resolving change nothing but playbooks |
| `OpenInterest.OITracker.LiquidityMultiplier` | internal/allocator/oigating.go:53-78 | always within [0.25, 1.5] |
| `OpenInterest.MultiplierMonotone` | internal/allocator/oigating.go:68-77 | never falls as open interest rises, and is one exactly at the baseline (below half of it the code steps from 0.5 down to 0.25) |
| `OpenInterest.MultiplierExactly` | internal/allocator/oigating.go:53-78 | one without a baseline or recent data, a quarter under half of the baseline, the proportion up to the baseline, the mean of one and the proportion up to twice of it, and one and a half beyond |
| `DynamicCap.DynamicAllocator.RecordFill` | internal/allocator/dynamic.go:41-57 | counts the fill and the win, and adds to recent and total profit |
| `DynamicCap.DynamicAllocator.AdjustedCap` | internal/allocator/dynamic.go:67-111 | the branches give the base cap times the multiplier of the model |
| `DynamicCap.DynamicAllocator.DecayRecentPnL` | internal/allocator/dynamic.go:116-122 | the recent profit of every strategy is multiplied by the factor, nothing else changes, in whatever order the map is walked |
| `DynamicCap.CapInRange` | internal/allocator/dynamic.go:76-107 | whatever the performance, after any fills and decays, the multiplier is within [0.25, 1.5] and above one only for a strategy that makes money, so the cut for one that loses money never applies |
| `DynamicCap.DecayKeepsCaps` | internal/allocator/dynamic.go:113-122 | decay leaves the multiplier of every performance as it is exactly by a positive factor: only the sign of the recent profit counts |
| `DynamicCap.MultiplierExactly` | internal/allocator/dynamic.go:76-107 | the multiplier by fills, wins and the sign of the recent profit, without divisions |
| `DynamicCap.AdjustedExactly` | internal/allocator/dynamic.go:67-111 | the base cap of the strategy times that, zero for a strategy without one |
| `DynamicCap.PerformanceIs` | internal/allocator/dynamic.go:41-57 | after any fills and decays the total is the sum of the profits, the recent profit that of what the later decays leave of each, and fills and wins are counted |
| `AllocatorCaps.DynamicCapOnlyLowers` | internal/allocator/engine.go:86-91 | whatever the performance, the cap used lies between a quarter of the configured cap and that cap: a dynamic cap above it is not used |
| `Allocator.Engine.Judge` | internal/allocator/engine.go:57-189 | the gates in order, then the scale: strategy cap, venues, capital, multiplier, Kelly |
| `Allocator.Engine.Evaluate` | internal/allocator/engine.go:57-213 | counts a rejection and changes nothing else, or scales the legs in the caller's slice and the expected profit and fees, and counts the legs against the strategy and the venues |
| `Allocator.Engine.ReleaseNotional` | internal/allocator/engine.go:217-228 | lowers one strategy and one venue, not below zero |
| `Allocator.Engine.RecordPnL` | internal/allocator/engine.go:287-297 | adds to profit, fees and fills, and raises the high-water mark |
| `AllocatorDecisions.QualityExactly` | internal/allocator/engine.go:66-70 | the quality gate lets pass exactly the qualities that the policy asks of the strategy's family, written out by family |
| `AllocatorDecisions.ApprovedExactly` | internal/allocator/engine.go:57-213 | an intent of non-negative legs is approved exactly when the mode is RUNNING or empty, the quality is allowed, the strategy is configured, the notional is within its percentage of the cap, every leg's venue has room, strategy and capital have room, and the part they and the multiplier leave is a tenth, and a twentieth after Kelly's fraction |
| `AllocatorDecisions.ApprovalDeploys` | internal/allocator/engine.go:145-213 | an approval deploys exactly the lesser of the notional and the room times the multiplier and Kelly's fraction, with each venue its part, and changes nothing else |
| `AllocatorDecisions.ExpectationInProportion` | internal/allocator/engine.go:198-203 | what the intent expects is kept in proportion to its size |
| `AllocatorDecisions.TrackersDecide` | internal/allocator/engine.go:80-97 | the multiplier is that of the first leg's venue, and the dynamic cap that of the strategy, where there is a tracker or an allocator |
| `AllocatorDecisions.RejectionExplained` | internal/allocator/engine.go:57-189 | every rejection is for a reason that holds of the inputs; the mode comes first, then the quality |
| `AllocatorDecisions.RejectionOnlyCounts` | internal/allocator/engine.go:57-189 | a rejection is counted under its reason and changes nothing else |
| `AllocatorDecisions.NothingRises` | internal/allocator/engine.go:61-64 | over any run of evaluations in another mode and of releases nothing is approved and nothing deployed rises |
| `AllocatorDecisions.EveryCallCounted` | internal/allocator/engine.go:57-297 | over any run every evaluation is counted once, by its outcome; profits and fees add up and fills are counted |
| `AllocatorDecisions.ReleaseUndoes` | internal/allocator/engine.go:217-228 | releasing the legs of an approval as they were scaled leaves strategy and venues as before it |
| `AllocatorCaps.VenueLoopNeverFires` | internal/allocator/engine.go:150-159 | with non-negative legs the venue rescaling loop never changes the scale |
| `AllocatorCaps.FitScaleFits` | internal/allocator/engine.go:145-169 | before the multiplier the scaled intent fits the strategy's room and the capital at once |
| `AllocatorCaps.ApprovedFits` | internal/allocator/engine.go:145-195 | what an approval adds is at most the multiplier times Kelly's fraction of the strategy's room, and of the capital's |
| `AllocatorCaps.CapitalAtApproval` | internal/allocator/engine.go:127-142 | when an approval is given, everything deployed is at most that often the equity of the moment |
| `AllocatorCaps.StrategiesStayWithin` | internal/allocator/engine.go:57-228 | over every interleaving of calls no strategy has deployed more than the bound times its cap, or less than nothing |
| `AllocatorCaps.VenuesStayWithin` | internal/allocator/engine.go:57-228 | the same of every venue, for legs on distinct venues |
| `AllocatorCaps.NeverOverOneAndAHalf` | internal/allocator/engine.go:171-172 | with the tracker's multipliers: never more than 1.5 times the cap |
| `AllocatorCaps.NeverOverCap` | internal/allocator/engine.go:171-189 | never more than the cap if no multiplier times Kelly's fraction exceeds one |
| `AllocatorCaps.StrategyCapsNeedBoost` | internal/allocator/engine.go:171-189 | approvals keep the strategy caps exactly when the multiplier times Kelly's fraction is at most one |
| `AllocatorCaps.VenueCapsNeedDistinct` | internal/allocator/engine.go:113-125 | approvals keep the venue caps exactly for legs on distinct venues: the gate looks at one leg at a time |
| `AllocatorCaps.PeakIsHighest` | internal/allocator/engine.go:287-297 | the high-water mark is the highest equity ever held, or zero without starting capital |

## Left out

- `TaxReport.GenerateReport`: derivative totals and the currency conversion are not modelled, and the cash-flow identity is for fully matched disposals only, since proceeds are scaled to the matched quantity; `TaxPool.FullyMatchedExactly` says when they are.
- `TaxReport.MatchSymbol`: a pools map in which two symbols share one pool object is not modelled; nor is it in `TaxReport.GenerateReport`.
- `TaxMatching.MatchSpotTrades`: the separate slice of disposals and its index map are modelled as the positions of the sales, so an update through the map is an update at a position.
- `ConsensusEngine.Compute`: the records in which anomalies and status updates are reported are not modelled; the numbers, weights, flags, anomalies and statuses are. Quotes of a venue arrive as a sequence with one feed for each venue.
- `Pricing.ComputeVwapBuy`: for a notional of zero or less, a book with a price of zero, by which the source would divide, is not modelled; nor is it in `Pricing.ComputeVwapSell` and `ConsensusEngine.Compute`.
- `CircuitBreaker.BlacklistedFromOK`: stated for runs that start without running timers and with the warning threshold at most the blacklist threshold.
- `Statistics.Percentile`: rounding and NaN are not modelled, here or anywhere.
- `RingBuffer.Buffer.Push`: the 64-bit counters do not wrap around.
- `RingBuffer.Buffer.Len`: its value under concurrency, since its two loads are not a snapshot.
- `Rebalancer.RebalanceTowardTarget`: the moves for venues near their margin limit and the target table are inputs; transfer times are not modelled.
- `Correlation.PearsonCorrelation`: the recording of quotes and the log returns that feed it are not modelled.
- `TransferPolicy.Engine.CheckTransfer`: the hash of the policy file and the parsing of dates are inputs; logging and texts are not modelled.
- `RiskDaemon.Daemon.Evaluate`: alert texts, tenants and time stamps are not modelled.
- `Allocator.Engine.Evaluate`: fields of an intent that it copies unchanged are not modelled.
- `AllocatorCaps.StrategiesStayWithin`: for non-negative legs and releases; a negative release adds to what is deployed without any gate.
- Latency reports, the executor of parallel tasks, paper fills and positions, margin efficiency: plain sums and averages.
- Live execution: its outcome depends on exchange replies.
- Redis, Postgres, HTTP, exchange adapters, quote clients, encryption and file formats: input and output only.
- Heuristic scores (router, prediction, regimes, keeper, rebates): mostly constants.
- `internal/orderbook/book.go` slippage: repeats the argument for the book walk.
