# Shop price tracker: a verified model of its pricing engine

The tracker shows each user the hourly price the shop charges them for every catalog item and
explains it. The shop derives that price deterministically. It hashes
`"{userId}-{itemId}-{hour}"` with SHA-256 and reads the first 32 bits as a draw in [0, 1]. The
draw scales a percentage between the (repaired) minimum and maximum percent, 90 and 110 by
default. The base price times that multiplier is rounded, clamped to
[floor(base · min / 100), ceil(base · max / 100)] and floored at 1. Because the draw is
reproducible, the tracker can do several things:

- reverse-engineer the base price from an observed price;
- rate the observed price on a 1–7 scale;
- predict the next hours' prices and the best hour to buy;
- sample 500 fake users over a week for the cheapest price anyone sees.

Three other pieces use the same machinery:

- **The Python script** `calculate_base_price.py` carries its own copy of the forward map. It
  rounds with Python's `round`, and it recovers a base by checking the rounded quotient and then
  searching the eleven bases around it.
- **The test helper** `reverse-engineer.ts` picks the nearest of floor, round and ceil.
- **The tracker page** sorts the report with its own comparator and keeps its sort and user-id
  state.

The modules follow the program's structure:

| module | file | models |
|---|---|---|
| `Numeric` | numeric.dfy | `Math.floor`/`ceil`/`round`, Python `round`, JavaScript numbers from a division |
| `Text` | text.dfy | number to string, `padStart`, `toLowerCase`, `includes` |
| `HourlyHash` | hourly_hash.dfy | the hash key, the hourly draw and the current hour |
| `Scan` | scan.dfy | the strict "`price < best`" running minimum shared by three loops |
| `Sorting` | sorting.dfy | the numeric ascending sort of the price distribution |
| `Sequences` | sequences.dfy | small sequence facts the loops use |
| `Pricing` | pricing.dfy | the forward map, the reverse map and the shell price |
| `Forecast` | forecast.dfy | `predictFuturePrices` and `findBestTimeToBuy` |
| `Recommendation` | recommendation.dfy | `analyzePriceAndRecommend` and `generateRecommendation` |
| `Sampler` | sampler.dfy | `findGlobalCheapestPrice` |
| `ShopTracker` | shop_tracker.dfy | src/lib/shop-tracker.ts |
| `BasePriceScript` | base_price_script.dfy | calculate_base_price.py |
| `ReverseCheck` | reverse_check.dfy | src/lib/tests/reverse-engineer.ts |
| `TrackerView` | tracker_view.dfy | `sortItems`, `toggleSort` and the user-id handlers of src/components/ShopTracker.tsx |

A few modelling choices apply throughout:

- **Hash:** SHA-256's 32-bit prefix is a parameter `sha: Digest` (a total function from the key
  string to a 32-bit word). Everything is proved for every such function.
- **Script draw:** the script's `create_hourly_random` hashes the same key and scales it the same
  way, so `HourlyHash.HourlyRandom` serves both.
- **Clock:** each operation takes the instant (`nowMs`, or `nowSeconds` in the script) as a
  parameter.
- **Loops:** they are methods proved equal to specification functions. The properties are
  proved about those functions.

## Model

| member | source | states |
|---|---|---|
| Numeric.Floor | src/lib/pricing-algorithms.ts:45 | `Math.floor`: the integer r with r ≤ x < r + 1 |
| Numeric.Ceil | src/lib/pricing-algorithms.ts:46 | `Math.ceil`: the integer r with x ≤ r < x + 1 |
| Numeric.JsRound | src/lib/pricing-algorithms.ts:52 | `Math.round`: the integer in (x − ½, x + ½], so a half rounds up |
| Numeric.PyRound | calculate_base_price.py:61 | Python `round`: within ½ of x, and at an exact half the even neighbour |
| Numeric.RoundingsAgreeOffTies | calculate_base_price.py:61 | `round` and `Math.round` agree unless x is half-way between integers; there `Math.round` goes up and `round` to the even neighbour |
| Numeric.JsRoundUnique | src/lib/pricing-algorithms.ts:82 | the only integer in (x − ½, x + ½] is `Math.round(x)` |
| Numeric.Divide | src/lib/pricing-algorithms.ts:192 | a JavaScript quotient is finite exactly when the divisor is non-zero, and NaN exactly for 0 / 0 |
| Numeric.SubtractSwapsSign | src/components/ShopTracker.tsx:60 | `diffA - diffB` is positive exactly when `diffB - diffA` is negative, infinities and NaN included |
| Numeric.NegateSwapsSign | src/components/ShopTracker.tsx:70 | `-compareValue` swaps positive and negative, and NaN stays signless |
| Text.NatString | src/lib/pricing-algorithms.ts:144 | `toString()` of a sample number: non-empty digits with no leading zero |
| Text.DecimalString | src/lib/pricing-algorithms.ts:24 | the hour in the key starts with a digit exactly when it is non-negative |
| Text.PadStart | src/lib/pricing-algorithms.ts:144 | `padStart`: length max(\|s\|, width), ends with s, fill before it |
| Text.Lower | src/lib/shop-tracker.ts:56 | `toLowerCase` maps every character and keeps the length |
| Text.LowerIdempotent | src/lib/shop-tracker.ts:56-57 | lowering twice is lowering once |
| Text.Contains | src/lib/shop-tracker.ts:56-57 | `includes` is true exactly when the pattern occurs at some index |
| HourlyHash.HashKey | src/lib/pricing-algorithms.ts:24 | the key starts with the user id and a `-`, ends with the decimal hour, and is two separators longer than its three parts |
| HourlyHash.HourlyRandom | src/lib/pricing-algorithms.ts:23-29 | the draw is in [0, 1]; it is 1 exactly when the word is 0xffffffff and 0 exactly when it is 0 |
| HourlyHash.KeysCollideAcrossDashes | src/lib/pricing-algorithms.ts:24 | user "a-b" with item "c" and user "a" with item "b-c" get the same key, so the same draw |
| HourlyHash.CurrentHour | src/lib/pricing-algorithms.ts:39 | the hour h with h · 3600000 ≤ now < (h + 1) · 3600000 |
| HourlyHash.CurrentHourOfHour | src/lib/pricing-algorithms.ts:39 | every instant of hour h has current hour h |
| Scan.Cheapest | src/lib/pricing-algorithms.ts:152-157 | the running minimum is at most the start and every quote, and is the start or one of the quotes |
| Scan.CheapestIsFirstMinimum | src/lib/pricing-algorithms.ts:152-157 | with strict `<` the first cheapest quote wins, and the start stays unless a quote is strictly cheaper |
| Scan.FirstMinimumIsUnique | src/lib/pricing-algorithms.ts:152-157 | that first minimum is unique |
| Scan.CheapestAppend | src/lib/pricing-algorithms.ts:152-157 | one more quote replaces the best exactly when it is strictly cheaper |
| Sorting.Insert | src/lib/pricing-algorithms.ts:166 | inserting into a sorted sequence gives a sorted sequence with one more element |
| Sorting.SortAscending | src/lib/pricing-algorithms.ts:166 | `sort((a, b) => a - b)` returns a sorted permutation |
| Sorting.SortedPermutationIsUnique | src/lib/pricing-algorithms.ts:166 | two sorted permutations of the same values are equal, so any correct sort gives the same distribution |
| Pricing.SafeBounds | src/lib/pricing-algorithms.ts:42-43 | the repaired bounds are ≥ 1 and the minimum, ≥ the minimum + 1 and the maximum, each the given value or its repair |
| Pricing.LegalBoundsUnchanged | src/lib/pricing-algorithms.ts:42-43 | legal bounds are kept as given |
| Pricing.RandomPercent | src/lib/pricing-algorithms.ts:48-49 | the random percent lies between the repaired bounds |
| Pricing.Multiplier | src/lib/pricing-algorithms.ts:48-50 | the multiplier lies in [safeMin / 100, safeMax / 100] and is at least 0.01 |
| Pricing.PriceWithMultiplier | src/lib/pricing-algorithms.ts:45-55 | the price is ≥ 1, and within [max(1, minPrice), max(1, maxPrice)] for a non-negative base |
| Pricing.PriceAtHour | src/lib/pricing-algorithms.ts:93-117 | the same bounds at any given hour |
| Pricing.MinPriceAtMostMaxPrice | src/lib/pricing-algorithms.ts:45-46 | minPrice ≤ maxPrice for a non-negative base |
| Pricing.ClampNeverBinds | src/lib/pricing-algorithms.ts:52-55 | for a non-negative base the clamp never changes the rounded price: only the floor at 1 can |
| Pricing.RoundedWithinBand | src/lib/pricing-algorithms.ts:45-52 | `Math.round(b · m)` lies in [floor(b · min / 100), ceil(b · max / 100)] |
| Pricing.RandomizedPrice | src/lib/pricing-algorithms.ts:32-56 | `calculateRandomizedPrice` is ≥ 1 and within the clamp range |
| Pricing.RandomizedPriceConstantWithinHour | src/lib/pricing-algorithms.ts:32-56 | two instants in the same hour get the same price, the hour's price |
| Pricing.ReverseEngineerBasePrice | src/lib/pricing-algorithms.ts:60-83 | the result r satisfies (r − ½) · m ≤ observed < (r + ½) · m for the hour's multiplier m |
| Pricing.InverseWithMultiplier | src/lib/pricing-algorithms.ts:79-82 | the same for any positive multiplier |
| Pricing.InverseOfRounded | src/lib/pricing-algorithms.ts:79-82 | dividing `Math.round(b · m)` by m ≥ ½ and rounding lands within one of b, and on b when m ≥ 1 |
| Pricing.RoundTripWithinOne | src/lib/pricing-algorithms.ts:60-83 | reversing a price at the hour it was made recovers the base to within one when safeMin ≥ 50 |
| Pricing.SmallMultiplierLosesTheBase | src/lib/pricing-algorithms.ts:45-82 | why safeMin ≥ 50 is needed: under bounds 1/2, base 149 at multiplier 0.01 prices at 1 with no clamp binding, and 1 reverses to 100 |
| Pricing.RoundTripExact | src/lib/pricing-algorithms.ts:60-83 | the round trip is exact when the multiplier is at least 1 |
| Pricing.ShellPrice | src/lib/pricing-algorithms.ts:86-91 | a rate ≤ 0 gives 0; a non-negative cost at a positive rate gives a non-negative price |
| Pricing.TravelStipendIsSixteenShells | src/lib/shop-tracker.ts:75 | $10 at $10 an hour costs 16 shells |
| Forecast.TimeLabel | src/lib/pricing-algorithms.ts:368-373 | "now" exactly at 0 hours; hours or days lead the label; the plural "s" exactly when the count is not 1 |
| Forecast.PredictFrom | src/lib/pricing-algorithms.ts:310-328 | the prediction loop returns `PredictionsFrom`, the predictions stated by PredictionsFromShape |
| Forecast.PredictOneMoreHour | src/lib/pricing-algorithms.ts:310-328 | one more loop iteration appends the next hour's prediction |
| Forecast.PredictFuturePrices | src/lib/pricing-algorithms.ts:290-331 | `predictFuturePrices` equals the predictions from the reconstructed base |
| Forecast.PredictionsFromShape | src/lib/pricing-algorithms.ts:310-328 | max(0, n) entries, the k-th for hour now + k + 1, with that hour's timestamp, label, price and percentage, in increasing hours |
| Forecast.PredictionsShape | src/lib/pricing-algorithms.ts:290-331 | the same for the reconstructed base at the current hour |
| Forecast.PredictionsWithinBand | src/lib/pricing-algorithms.ts:305-314 | under 90/110 a positive observed price gives a base ≥ 1, finite percentages and prices within the band |
| Forecast.PredictionsOfFreshPriceAreExact | src/lib/pricing-algorithms.ts:305-312 | when this hour's multiplier is ≥ 1, the predictions are the true future prices |
| Forecast.FindBestFrom | src/lib/pricing-algorithms.ts:355-366 | the best-hour loop returns `BestTimeFrom`, the window stated by BestTimeFromIsFirstMinimum |
| Forecast.ScanOneMoreHour | src/lib/pricing-algorithms.ts:358-366 | one more hour replaces the best exactly when strictly cheaper |
| Forecast.FindBestTimeToBuy | src/lib/pricing-algorithms.ts:334-383 | `findBestTimeToBuy` returns `BestTimeToBuy`, the first cheapest predicted hour |
| Forecast.BestTimeFromIsFirstMinimum | src/lib/pricing-algorithms.ts:355-382 | the best price is at most the current price and every prediction, with savings = current − best ≥ 0; "now" exactly when nothing is strictly cheaper; otherwise the first strictly cheaper minimum |
| Forecast.QuotesMatchPredictions | src/lib/pricing-algorithms.ts:358-360 | the hours the best-time loop scans are the predicted hours and prices |
| Forecast.BestTimeIsFirstMinimumOfPredictions | src/lib/pricing-algorithms.ts:334-383 | the same for `findBestTimeToBuy` against `predictFuturePrices` |
| Recommendation.Score | src/lib/pricing-algorithms.ts:230-272 | the score is between 1 and 7 |
| Recommendation.ScoreCountsThresholdsExceeded | src/lib/pricing-algorithms.ts:230-272 | the score is 1 plus the number of thresholds 92, 96, 100, 104, 108, 110 the percentage exceeds |
| Recommendation.ScoreMonotone | src/lib/pricing-algorithms.ts:230-272 | a higher percentage never gets a better score |
| Recommendation.ScoreOf | src/lib/pricing-algorithms.ts:230-272 | each action belongs to exactly one score |
| Recommendation.ChangeNote | src/lib/pricing-algorithms.ts:277 | the "price changes in" suffix is non-empty |
| Recommendation.GenerateRecommendation | src/lib/pricing-algorithms.ts:215-287 | the score's action, colour and reason; confidence + 10 (capped at 100) and the suffix exactly when fewer than 10 minutes remain and the score is ≥ 4 |
| Recommendation.TimeUntilChange | src/lib/pricing-algorithms.ts:181-188 | 1 hour 0 minutes exactly on the hour; otherwise 0 hours and the whole minutes left in the hour |
| Recommendation.OnTheHourCountsAsChangingSoon | src/lib/pricing-algorithms.ts:184-188 | exactly on the hour 0 minutes are reported, so a score ≥ 4 gets the "changes in 0min" note although a full hour remains |
| Recommendation.PercentOfBase | src/lib/pricing-algorithms.ts:192 | the percentage is finite exactly when the base is non-zero |
| Recommendation.AnalyzePriceAndRecommend | src/lib/pricing-algorithms.ts:171-213 | the analysis carries the observed price, the reverse-engineered base, the percentage `(price / base) * 100`, the possible range from the raw percentages, the countdown, and the recommendation generated from that percentage and the minutes left |
| Recommendation.PossibleRangeMatchesPriceMap | src/lib/pricing-algorithms.ts:190-191 | for legal bounds the possible range is the forward map's clamp range |
| Recommendation.DefaultBoundsGivePositiveBase | src/lib/pricing-algorithms.ts:179-192 | under 90/110 a positive observed price gives a base ≥ 1 and a finite percentage |
| Recommendation.AnalysisOfFreshPrice | src/lib/pricing-algorithms.ts:179 | analysing a price the shop just charged recovers its base to within one, and equals the base when the multiplier is ≥ 1 |
| Sampler.FakeUserId | src/lib/pricing-algorithms.ts:144 | a fake user id is at least 15 characters |
| Sampler.SampleRowAt | src/lib/pricing-algorithms.ts:146-148 | the j-th hour of a fake user's row is that user's price at hour now + j |
| Sampler.ScanOneMoreSample | src/lib/pricing-algorithms.ts:146-157 | one more sample extends the distribution and replaces the best exactly when strictly cheaper |
| Sampler.ScanUserHours | src/lib/pricing-algorithms.ts:146-158 | the inner loop keeps the scan state over one user's hours |
| Sampler.ScanMarket | src/lib/pricing-algorithms.ts:134-167 | the nested loops return `GlobalCheapestFrom` over the sampled users and hours |
| Sampler.SamplesStep | src/lib/pricing-algorithms.ts:143-159 | one more user appends that user's row |
| Sampler.FinishScan | src/lib/pricing-algorithms.ts:161-167 | the record built from the final scan state, with the distribution sorted, is `GlobalCheapestFrom` |
| Sampler.FindGlobalCheapestPrice | src/lib/pricing-algorithms.ts:120-168 | `findGlobalCheapestPrice` returns `GlobalCheapestPrice`, the scan over fake users and the coming hours |
| Sampler.SamplesLength | src/lib/pricing-algorithms.ts:143-150 | users × hours samples are taken |
| Sampler.SamplesAreTableEntries | src/lib/pricing-algorithms.ts:143-148 | every sample is some sampled user's price at some scanned hour |
| Sampler.GlobalCheapestFromProperties | src/lib/pricing-algorithms.ts:134-167 | the distribution is the sorted permutation of all samples; the cheapest is at most the base and every sample, and is the first strict minimum; with nothing below the base the defaults ('' user, hour 0, 100%) remain |
| Sampler.CheapestIsBaseOrLowestSample | src/lib/pricing-algorithms.ts:152-166 | the cheapest price is the smaller of the base and the distribution's first element |
| Sampler.BandedTableProperties | src/lib/pricing-algorithms.ts:148-156 | prices in a band keep the distribution in it and the percentage finite, and a named cheapest user is a sampled entry |
| Sampler.MarketPricesWithinBand | src/lib/pricing-algorithms.ts:148 | every sampled price lies in the clamp range |
| Sampler.DistributionWithinBand | src/lib/pricing-algorithms.ts:148-150 | the whole distribution lies in the clamp range |
| Sampler.GlobalCheapestPriceProperties | src/lib/pricing-algorithms.ts:120-168 | the percentage is finite; a named cheapest user is a fake user whose price at a scanned hour is the cheapest price |
| ShopTracker.PricingTypeOf | src/lib/shop-tracker.ts:53-62 | fixed exactly when flagged or the lowered name contains "travel stipend" or "void" |
| ShopTracker.PricingTypeIgnoresCase | src/lib/shop-tracker.ts:55-57 | the pricing type does not depend on the name's case |
| ShopTracker.TravelStipendIsFixed | src/lib/shop-tracker.ts:54-58 | the travel stipend is fixed |
| ShopTracker.CalculateActualPrice | src/lib/shop-tracker.ts:65-105 | fixed items cost their base (16 shells for the stipend); randomized items cost the forward map's price at 90/110, within its band |
| ShopTracker.TablesAppend | src/lib/shop-tracker.ts:125-157 | a row writes its price, its rating when analysed, and its prediction when randomized |
| ShopTracker.PriceTableProperties | src/lib/shop-tracker.ts:125 | `prices` has one key per item id, holding the price of the last row with that id |
| ShopTracker.RatingTableProperties | src/lib/shop-tracker.ts:141 | `ratings` has exactly the analysed ids, each with the last analysed row's recommendation |
| ShopTracker.PredictionTableProperties | src/lib/shop-tracker.ts:154-157 | `predictions` has exactly the randomized ids, each with the last such row's best price and time |
| ShopTracker.ReportRow | src/lib/shop-tracker.ts:121-176 | the row built for an item is the item's report row |
| ShopTracker.RecordRow | src/lib/shop-tracker.ts:125-157 | the three tables after a row are the tables of the rows so far plus it |
| ShopTracker.GetUserPricingAnalysis | src/lib/shop-tracker.ts:108-186 | one row per catalog item in order, and the three tables of those rows |
| ShopTracker.UserItemProperties | src/lib/shop-tracker.ts:120-176 | fixed rows have no analysis and a "Fixed price" window; randomized rows have an analysis and a best window no dearer than now, with the base recovered to within one |
| ShopTracker.MinOf | src/lib/shop-tracker.ts:218 | `Math.min(...)` is an element no larger than any |
| ShopTracker.MaxOf | src/lib/shop-tracker.ts:219 | `Math.max(...)` is an element no smaller than any |
| ShopTracker.SortedEnds | src/lib/shop-tracker.ts:218-220 | on the sorted distribution these are its first and last elements |
| ShopTracker.RandomizedSummaryProperties | src/lib/shop-tracker.ts:206-221 | the cheapest is min(base, range min); savings = base − cheapest ≥ 0; min ≤ median ≤ max within the band |
| ShopTracker.GlobalMarketAnalysis | src/lib/shop-tracker.ts:189-243 | one market entry per catalog item, in order |
| ShopTracker.FixedMarketItemProperties | src/lib/shop-tracker.ts:226-241 | a fixed item's entry is its base (16 for the stipend) everywhere, with no savings |
| ShopTracker.RandomizedMarketItemProperties | src/lib/shop-tracker.ts:193-223 | a randomized item's cheapest price, savings, savings percentage and price range, within the clamp range |
| ShopTracker.FindItem | src/lib/shop-tracker.ts:247 | `find` returns the first item with the id, and nothing exactly when none has it |
| ShopTracker.ItemPricePrediction | src/lib/shop-tracker.ts:246-303 | the error "Item … not found" exactly for an unknown id; the fixed message exactly for fixed items |
| ShopTracker.ForecastProperties | src/lib/shop-tracker.ts:261-302 | for a known randomized item, the summary's price, best price, savings, action and wait agree with the analysis, the forecast and the best window |
| ShopTracker.FormatPercentage | src/lib/shop-tracker.ts:311-313 | a "+" exactly for a positive percentage, then the digits and "%" |
| BasePriceScript.PyCurrentHour | calculate_base_price.py:43 | the hour h with h · 3600 ≤ timestamp < (h + 1) · 3600 |
| BasePriceScript.ClocksAgreeOnHour | calculate_base_price.py:43 | the script and the engine agree on the hour of every instant |
| BasePriceScript.PyPriceWithMultiplier | calculate_base_price.py:52-64 | the script's price is ≥ 1 and within the clamp range |
| BasePriceScript.ForwardMapsAgreeOffTies | calculate_base_price.py:36-64 | the script's price equals the engine's unless base · multiplier is half-way between integers |
| BasePriceScript.ForwardMapsDivergeOnTies | calculate_base_price.py:61 | with a multiplier of 0.9 a base of 5 costs 5 in the engine and 4 in the script |
| BasePriceScript.SearchFromProperties | calculate_base_price.py:98-103 | the search finds the first positive reproducing base in offset order, and nothing exactly when there is none |
| BasePriceScript.ReverseFromProperties | calculate_base_price.py:89-107 | the result is within 5 of the candidate; it reproduces the price unless it is the candidate; any other result is the first positive match; some match in range means the result reproduces |
| BasePriceScript.SearchNearCandidate | calculate_base_price.py:91-107 | the verify-then-search loop with its early returns computes `ReverseFrom` |
| BasePriceScript.ReverseEngineerBasePrice | calculate_base_price.py:66-107 | `reverse_engineer_base_price` computes `PyReverse`: the candidate from the hour's multiplier, then `ReverseFrom` |
| BasePriceScript.PyRoundedWithinBand | calculate_base_price.py:52-62 | `round(b · m)` lies in [floor(b · min / 100), ceil(b · max / 100)] |
| BasePriceScript.PyRoundInBand | calculate_base_price.py:52-62 | for a non-negative base, `round(b · m)` already lies in [min_price, max_price], so the script's clamp never changes it |
| BasePriceScript.PyPriceNearProduct | calculate_base_price.py:61-64 | for a base ≥ 1 and safeMin ≥ 50 the script's price is within ½ of b · m |
| BasePriceScript.CandidateNearBase | calculate_base_price.py:86-89 | the candidate from such a price is within one of the base |
| BasePriceScript.SearchFindsReproducingBase | calculate_base_price.py:98-103 | a positive reproducing base within 5 of the candidate makes the result reproduce too, within 10 of that base |
| BasePriceScript.PyRoundTripReproduces | calculate_base_price.py:66-107 | reversing a price the script made finds a base that reproduces it, within 6 of the true base, when safeMin ≥ 50 |
| BasePriceScript.PyShellPrice | calculate_base_price.py:109-116 | a rate ≤ 0 gives 0; off ties it equals the engine's shell price |
| BasePriceScript.PyTravelStipendIsSixteenShells | calculate_base_price.py:109-116 | $10 at $10 an hour is 16 shells in the script too |
| ReverseCheck.ReduceNearestProperties | src/lib/tests/reverse-engineer.ts:32-34 | the `reduce` returns one of the candidates, no farther from the quotient than any other, and replaces the first only with a strictly nearer one |
| ReverseCheck.NearestCandidateRoundsHalfDown | src/lib/tests/reverse-engineer.ts:28-34 | the helper returns one of floor, `Math.round` and ceil of the quotient x, within ½ of x: ceil(x − ½), so `Math.round` off halves and one less at a half |
| ReverseCheck.HelperAgreesWithEngine | src/lib/tests/reverse-engineer.ts:11-35 | the helper equals `reverseEngineerBasePrice` unless the quotient is a half, where it is one less |
| TrackerView.FixedItemsGoLast | src/components/ShopTracker.tsx:38-40 | a fixed item compares after a non-fixed one, whatever the field and direction |
| TrackerView.InOrderAfterFixed | src/components/ShopTracker.tsx:38-40 | only a fixed item may follow a fixed one without being out of order |
| TrackerView.DescendingReversesAscending | src/components/ShopTracker.tsx:70 | for items of the same kind, descending reports the opposite sign of ascending |
| TrackerView.EqualPricesOrderedByScore | src/components/ShopTracker.tsx:47-53 | equal prices are ordered by score when both items are analysed, and tie otherwise |
| TrackerView.EqualRatingsOrderedByPrice | src/components/ShopTracker.tsx:62-68 | for items of the same kind, equal scores (a missing analysis counting as 0) are ordered by price, in both directions of the comparison |
| TrackerView.FieldCompareAntisymmetric | src/components/ShopTracker.tsx:42-69 | each field comparison says a-before-b exactly when it says b-after-a |
| TrackerView.CompareAntisymmetric | src/components/ShopTracker.tsx:37-71 | the same for the whole comparator |
| TrackerView.OutOfOrderNeverBothWays | src/components/ShopTracker.tsx:37-71 | the comparator never puts both orders of a pair in the wrong order |
| TrackerView.InsertAt | src/components/ShopTracker.tsx:37 | one insertion pass extends the prefix without neighbours out of order, keeping the elements |
| TrackerView.InsertionSort | src/components/ShopTracker.tsx:37 | the in-place sort gives a permutation with no neighbours out of order |
| TrackerView.SortItems | src/components/ShopTracker.tsx:36-72 | `sortItems` returns a new array that is a permutation of the items with no neighbours out of order, and leaves the items as they are |
| TrackerView.FixedItemsSortLast | src/components/ShopTracker.tsx:38-40 | in the sorted items every non-fixed item precedes every fixed one |
| TrackerView.AscendingByPriceOrdersNeighbours | src/components/ShopTracker.tsx:47-53 | sorted by ascending price, neighbouring randomized items have non-decreasing prices, and equal prices have non-decreasing scores |
| TrackerView.TrackerState.constructor | src/components/ShopTracker.tsx:18-24 | the id form is open exactly when no id is stored; sorted by ascending current price |
| TrackerView.TrackerState.ToggleSort | src/components/ShopTracker.tsx:27-34 | the same field flips the direction; another field is selected ascending; nothing else changes |
| TrackerView.TrackerState.SetTempUserId | src/components/ShopTracker.tsx:148 | typing changes only the typed id |
| TrackerView.TrackerState.HandleUpdateUserId | src/components/ShopTracker.tsx:87-92 | an empty typed id changes nothing; otherwise it becomes the id and the form closes; the form never closes without an id |
| TrackerView.TrackerState.HandleEditUserId | src/components/ShopTracker.tsx:94-97 | the form opens with the id in use |

## Left out

- SHA-256 is abstracted. Only its first 32 bits are used, as an arbitrary function of the key
  string, so the model says nothing about which particular draws occur.
- Clock reads are collapsed to one instant per operation. The source reads `Date.now()` or
  `datetime.now()` once per call, so a call that spans an hour boundary can mix two hours. The
  model gives every call the same instant.
- Arithmetic is on exact reals and integers, not IEEE doubles. Golden-ratio φ is the double's
  exact value. A base · multiplier that lands on a half only under floating-point rounding is
  not captured.
- Percent bounds are integers. The Python script accepts floats; the catalog passes 90 and 110.
- `toFixed` and `toLocaleString` are not modelled. The reason text of a recommendation is its
  tier plus the "price changes in" suffix. `formatPercentage` takes the `toFixed(1)` digits as an
  argument. `formatPrice` is not modelled.
- Lowercasing is per character and covers ASCII letters only.
- `localeCompare` is a parameter, assumed antisymmetric in sign.
- TrackerView.SortItems: the engine's sort algorithm is replaced by a stable insertion sort. Its
  contract states only what every sort gives when the comparator is consistent: a permutation
  with no neighbours out of order. For inconsistent comparisons (NaN differences) a different
  algorithm may order items differently.
- The catalog (`items.ts`) is a parameter. Descriptions, images and other copied fields are
  left out of the records.
- UI rendering, React effects, loading state, colours, cookies, `console.log`, the script's
  `main()` and the example call in reverse-engineer.ts are not part of this model. The warning
  `print` in `reverse_engineer_base_price` is not modelled either; the value it returns is.
- Sampler.ScanMarket, ShopTracker.ReportRow, ShopTracker.RecordRow and
  BasePriceScript.SearchNearCandidate are the loop bodies of the source's functions, split into
  methods of their own. ShopTracker.GetUserPricingAnalysis writes the `items.map` as a loop over
  the catalog.
- Recommendation.AnalyzePriceAndRecommend follows the source: `minPossiblePrice` and
  `maxPossiblePrice` use the raw percents, not the repaired ones. They equal the forward map's
  clamp range only for legal bounds, which is what PossibleRangeMatchesPriceMap states.
- `.sort` on the distribution is proved against what it must return (a sorted permutation, which
  is unique), not against the engine's algorithm.
