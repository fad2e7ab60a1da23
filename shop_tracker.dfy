/** `shop-tracker.ts`: the shop-facing layer over the pricing engine. It sorts catalog items
    into randomized and fixed pricing, prices them for one user, and builds three reports: the
    per-user report with its lookup tables, the market-wide report over sampled users, and the
    forecast for one item. The catalog is a parameter and every clock read is the one instant
    nowMs. */
module ShopTracker {
  import opened Numeric
  import opened Text
  import opened HourlyHash
  import opened Pricing
  import opened Scan
  import opened Recommendation
  import opened Forecast
  import opened Sorting
  import opened Sampler
  import Sequences

  datatype Option<T> = None | Some(value: T)

  /** A value, or the message of the error the source throws. */
  datatype Result<T> = Success(value: T) | Failure(error: string)

  /** A catalog entry. The description, image, type and category are copied unchanged into
      every report, so they are not modelled. */
  datatype CatalogItem = CatalogItem(id: string, name: string, basePrice: int, isFixed: bool)

  datatype PricingType = Randomized | Fixed

  const DefaultDollarsPerHour: real := 10.0

  /** The travel stipend costs $10. */
  const StipendUsd: real := 10.0

  predicate IsTravelStipend(item: CatalogItem)
  {
    Contains(Lower(item.name), "travel stipend")
  }

  /** `getItemPricingType`: fixed exactly when the catalog says so or the lower-cased name
      mentions the travel stipend or the void. */
  function PricingTypeOf(item: CatalogItem): (t: PricingType)
    ensures t == Fixed <==>
      || item.isFixed
      || (exists i :: OccursAt(Lower(item.name), "travel stipend", i))
      || (exists i :: OccursAt(Lower(item.name), "void", i))
  {
    if item.isFixed || IsTravelStipend(item) || Contains(Lower(item.name), "void") then Fixed
    else Randomized
  }

  /** The classification ignores the case of the name. */
  lemma PricingTypeIgnoresCase(item: CatalogItem)
    ensures PricingTypeOf(item.(name := Lower(item.name))) == PricingTypeOf(item)
  {
    LowerIdempotent(item.name);
  }

  /** A catalog entry named "Travel Stipend" is fixed even when its flag is not set. */
  lemma TravelStipendIsFixed(id: string, basePrice: int)
    ensures PricingTypeOf(CatalogItem(id, "Travel Stipend", basePrice, false)) == Fixed
  {
    var name := "Travel Stipend";
    assert Lower(name) == "travel stipend";
    assert OccursAt(Lower(name), "travel stipend", 0);
  }

  /** The prices `calculateActualPrice` reports for one item. */
  datatype ActualPrice = ActualPrice(observedPrice: int, basePrice: int, pricingType: PricingType)

  /** `calculateActualPrice`: the travel stipend costs its shell price, other fixed items
      their catalog price, and randomized items the user's current price under the default
      90/110 bounds, with the catalog's base price reported as the base. */
  function CalculateActualPrice(sha: Digest, userId: string, item: CatalogItem, nowMs: int): (a: ActualPrice)
    ensures a.pricingType == PricingTypeOf(item)
    ensures a.pricingType == Fixed ==> a.observedPrice == a.basePrice
    ensures a.pricingType == Fixed && IsTravelStipend(item) ==> a.basePrice == 16
    ensures a.pricingType == Fixed && !IsTravelStipend(item) ==> a.basePrice == item.basePrice
    ensures a.pricingType == Randomized ==>
      && a.basePrice == item.basePrice
      && a.observedPrice == RandomizedPrice(sha, userId, item.id, item.basePrice, DefaultMinPercent, DefaultMaxPercent, nowMs)
      && a.observedPrice >= 1
    ensures a.pricingType == Randomized && item.basePrice >= 0 ==>
      var b := SafeBounds(DefaultMinPercent, DefaultMaxPercent);
      Max(1, MinPrice(item.basePrice, b)) <= a.observedPrice <= Max(1, MaxPrice(item.basePrice, b))
  {
    if PricingTypeOf(item) == Fixed then
      if IsTravelStipend(item) then
        var shellPrice := ShellPrice(StipendUsd, DefaultDollarsPerHour);
        TravelStipendIsSixteenShells();
        ActualPrice(shellPrice, shellPrice, Fixed)
      else
        ActualPrice(item.basePrice, item.basePrice, Fixed)
    else
      var currentPrice := RandomizedPrice(sha, userId, item.id, item.basePrice, DefaultMinPercent, DefaultMaxPercent, nowMs);
      ActualPrice(currentPrice, item.basePrice, Randomized)
  }

  /** The declared fields of `bestTimeInNext24h`. */
  datatype BestWindow = BestWindow(bestHour: int, bestPrice: int, timeFromNow: string, savingsFromCurrent: int)

  /** One row of the per-user report. */
  datatype UserItem = UserItem(
    item: CatalogItem, basePrice: int, observedPrice: int, currentUserPrice: int,
    analysis: Option<PriceAnalysis>, pricingType: PricingType, bestTimeInNext24h: BestWindow)

  /** An entry of the `predictions` table. */
  datatype PredictionSummary = PredictionSummary(bestPrice: int, bestTime: string)

  datatype UserPricing = UserPricing(
    userId: string, items: seq<UserItem>, prices: map<string, int>,
    predictions: map<string, PredictionSummary>, ratings: map<string, PriceRecommendation>)

  /** The hours `getUserPricingAnalysis` searches for a better price. */
  const WindowHours: int := 24

  /** The row the per-user report holds for one item. */
  function UserItemFor(sha: Digest, userId: string, item: CatalogItem, nowMs: int): UserItem
  {
    var a := CalculateActualPrice(sha, userId, item, nowMs);
    if a.pricingType == Randomized then
      var analysis := AnalyzePriceAndRecommend(sha, userId, item.id, a.observedPrice, DefaultMinPercent, DefaultMaxPercent, nowMs);
      var best := BestTimeToBuy(sha, userId, item.id, a.observedPrice, DefaultMinPercent, DefaultMaxPercent, WindowHours, nowMs);
      UserItem(item, a.basePrice, a.observedPrice, a.observedPrice, Some(analysis), Randomized,
               BestWindow(best.bestHour, best.bestPrice, best.timeFromNow, best.savingsFromCurrent))
    else
      UserItem(item, a.basePrice, a.observedPrice, a.observedPrice, None, Fixed,
               BestWindow(CurrentHour(nowMs), a.basePrice, "Fixed price", 0))
  }

  /** The `prices` table built from the report's rows in order: every row writes its id, so
      the last row with an id wins. */
  function PriceTable(rows: seq<UserItem>): map<string, int>
  {
    if rows == [] then map[]
    else
      var last := rows[|rows| - 1];
      PriceTable(rows[..|rows| - 1])[last.item.id := last.currentUserPrice]
  }

  /** The `ratings` table: only rows with an analysis write to it. */
  function RatingTable(rows: seq<UserItem>): map<string, PriceRecommendation>
  {
    if rows == [] then map[]
    else
      var last := rows[|rows| - 1];
      var earlier := RatingTable(rows[..|rows| - 1]);
      if last.analysis.Some? then earlier[last.item.id := last.analysis.value.recommendation] else earlier
  }

  /** The `predictions` table: only randomized rows write to it. */
  function PredictionTable(rows: seq<UserItem>): map<string, PredictionSummary>
  {
    if rows == [] then map[]
    else
      var last := rows[|rows| - 1];
      var earlier := PredictionTable(rows[..|rows| - 1]);
      if last.pricingType == Randomized
      then earlier[last.item.id := PredictionSummary(last.bestTimeInNext24h.bestPrice, last.bestTimeInNext24h.timeFromNow)]
      else earlier
  }

  /** Adding one row to the report writes that row's entries over the tables so far. */
  lemma TablesAppend(rows: seq<UserItem>, row: UserItem)
    ensures PriceTable(rows + [row]) == PriceTable(rows)[row.item.id := row.currentUserPrice]
    ensures RatingTable(rows + [row])
         == if row.analysis.Some? then RatingTable(rows)[row.item.id := row.analysis.value.recommendation]
            else RatingTable(rows)
    ensures PredictionTable(rows + [row])
         == if row.pricingType == Randomized
            then PredictionTable(rows)[row.item.id := PredictionSummary(row.bestTimeInNext24h.bestPrice, row.bestTimeInNext24h.timeFromNow)]
            else PredictionTable(rows)
  {
    assert (rows + [row])[..|rows|] == rows;
  }

  /** The ids of the rows. */
  ghost function RowIds(rows: seq<UserItem>): set<string>
  {
    set i | 0 <= i < |rows| :: rows[i].item.id
  }

  /** No row after row i has its id. */
  ghost predicate LastWithId(rows: seq<UserItem>, i: int)
    requires 0 <= i < |rows|
  {
    forall j :: i < j < |rows| ==> rows[j].item.id != rows[i].item.id
  }

  /** One more row adds its id to the ids of the rows. */
  lemma RowIdsAppend(rows: seq<UserItem>, row: UserItem)
    ensures RowIds(rows + [row]) == RowIds(rows) + {row.item.id}
  {
    var all := rows + [row];
    assert forall i :: 0 <= i < |rows| ==> all[i] == rows[i];
    assert all[|rows|] == row;
  }

  /** Every row's id has a price, and nothing else does; the price of an id is that of the last
      row carrying it. */
  lemma {:induction false} PriceTableProperties(rows: seq<UserItem>)
    ensures PriceTable(rows).Keys == RowIds(rows)
    ensures forall i :: 0 <= i < |rows| && LastWithId(rows, i) ==>
      rows[i].item.id in PriceTable(rows) && PriceTable(rows)[rows[i].item.id] == rows[i].currentUserPrice
    decreases |rows|
  {
    if rows != [] {
      var n := |rows| - 1;
      var prefix := rows[..n];
      PriceTableProperties(prefix);
      assert rows == prefix + [rows[n]];
      TablesAppend(prefix, rows[n]);
      RowIdsAppend(prefix, rows[n]);
      forall i | 0 <= i < |rows| && LastWithId(rows, i)
        ensures rows[i].item.id in PriceTable(rows) && PriceTable(rows)[rows[i].item.id] == rows[i].currentUserPrice
      {
        if i < n {
          assert prefix[i] == rows[i];
          assert LastWithId(prefix, i);
        }
      }
    }
  }

  /** The ids of the rows that carry an analysis. */
  ghost function AnalysedIds(rows: seq<UserItem>): set<string>
  {
    set i | 0 <= i < |rows| && rows[i].analysis.Some? :: rows[i].item.id
  }

  /** No row with an analysis after row i has its id. */
  ghost predicate LastAnalysedWithId(rows: seq<UserItem>, i: int)
    requires 0 <= i < |rows|
  {
    forall j :: i < j < |rows| && rows[j].analysis.Some? ==> rows[j].item.id != rows[i].item.id
  }

  /** Ratings exist for exactly the ids of analysed rows, and an id's rating is the
      recommendation of the last analysed row carrying it. */
  lemma {:induction false} RatingTableProperties(rows: seq<UserItem>)
    ensures RatingTable(rows).Keys == AnalysedIds(rows)
    ensures forall i :: 0 <= i < |rows| && rows[i].analysis.Some? && LastAnalysedWithId(rows, i) ==>
      rows[i].item.id in RatingTable(rows) && RatingTable(rows)[rows[i].item.id] == rows[i].analysis.value.recommendation
    decreases |rows|
  {
    if rows != [] {
      var n := |rows| - 1;
      var prefix := rows[..n];
      RatingTableProperties(prefix);
      assert rows == prefix + [rows[n]];
      TablesAppend(prefix, rows[n]);
      assert forall i :: 0 <= i < n ==> prefix[i] == rows[i];
      if rows[n].analysis.Some? {
        assert rows[n].item.id in AnalysedIds(rows);
      }
      forall i | 0 <= i < |rows| && rows[i].analysis.Some? && LastAnalysedWithId(rows, i)
        ensures rows[i].item.id in RatingTable(rows) && RatingTable(rows)[rows[i].item.id] == rows[i].analysis.value.recommendation
      {
        if i < n {
          assert LastAnalysedWithId(prefix, i);
        }
      }
    }
  }

  /** The ids of the randomized rows. */
  ghost function RandomizedIds(rows: seq<UserItem>): set<string>
  {
    set i | 0 <= i < |rows| && rows[i].pricingType == Randomized :: rows[i].item.id
  }

  /** No randomized row after row i has its id. */
  ghost predicate LastRandomizedWithId(rows: seq<UserItem>, i: int)
    requires 0 <= i < |rows|
  {
    forall j :: i < j < |rows| && rows[j].pricingType == Randomized ==> rows[j].item.id != rows[i].item.id
  }

  /** Predictions exist for exactly the ids of randomized rows, and an id's prediction is the
      window of the last randomized row carrying it. */
  lemma {:induction false} PredictionTableProperties(rows: seq<UserItem>)
    ensures PredictionTable(rows).Keys == RandomizedIds(rows)
    ensures forall i :: 0 <= i < |rows| && rows[i].pricingType == Randomized && LastRandomizedWithId(rows, i) ==>
      && rows[i].item.id in PredictionTable(rows)
      && PredictionTable(rows)[rows[i].item.id]
           == PredictionSummary(rows[i].bestTimeInNext24h.bestPrice, rows[i].bestTimeInNext24h.timeFromNow)
    decreases |rows|
  {
    if rows != [] {
      var n := |rows| - 1;
      var prefix := rows[..n];
      PredictionTableProperties(prefix);
      assert rows == prefix + [rows[n]];
      TablesAppend(prefix, rows[n]);
      assert forall i :: 0 <= i < n ==> prefix[i] == rows[i];
      if rows[n].pricingType == Randomized {
        assert rows[n].item.id in RandomizedIds(rows);
      }
      forall i | 0 <= i < |rows| && rows[i].pricingType == Randomized && LastRandomizedWithId(rows, i)
        ensures rows[i].item.id in PredictionTable(rows)
        ensures PredictionTable(rows)[rows[i].item.id]
             == PredictionSummary(rows[i].bestTimeInNext24h.bestPrice, rows[i].bestTimeInNext24h.timeFromNow)
      {
        if i < n {
          assert LastRandomizedWithId(prefix, i);
        }
      }
    }
  }

  /** One row of the report, computed as the loop body computes it. */
  method ReportRow(sha: Digest, userId: string, item: CatalogItem, nowMs: int) returns (row: UserItem)
    ensures row == UserItemFor(sha, userId, item, nowMs)
  {
    var actual := CalculateActualPrice(sha, userId, item, nowMs);
    var currentUserPrice := actual.observedPrice;
    var analysis: Option<PriceAnalysis>;
    var window: BestWindow;
    if actual.pricingType == Randomized {
      var a := AnalyzePriceAndRecommend(sha, userId, item.id, actual.observedPrice, DefaultMinPercent, DefaultMaxPercent, nowMs);
      analysis := Some(a);
      var best := FindBestTimeToBuy(sha, userId, item.id, actual.observedPrice, DefaultMinPercent, DefaultMaxPercent, WindowHours, nowMs);
      window := BestWindow(best.bestHour, best.bestPrice, best.timeFromNow, best.savingsFromCurrent);
    } else {
      analysis := None;
      window := BestWindow(CurrentHour(nowMs), actual.basePrice, "Fixed price", 0);
    }
    row := UserItem(item, actual.basePrice, actual.observedPrice, currentUserPrice, analysis, actual.pricingType, window);
  }

  /** The loop body's table updates for one new row: its price always, its rating when it has
      an analysis, its prediction when it is randomized. */
  method RecordRow(ghost rows: seq<UserItem>, row: UserItem, prices: map<string, int>,
                   ratings: map<string, PriceRecommendation>, predictions: map<string, PredictionSummary>)
    returns (prices': map<string, int>, ratings': map<string, PriceRecommendation>,
             predictions': map<string, PredictionSummary>)
    requires prices == PriceTable(rows) && ratings == RatingTable(rows) && predictions == PredictionTable(rows)
    ensures prices' == PriceTable(rows + [row])
    ensures ratings' == RatingTable(rows + [row])
    ensures predictions' == PredictionTable(rows + [row])
  {
    prices', ratings', predictions' := prices, ratings, predictions;
    prices' := prices'[row.item.id := row.currentUserPrice];
    if row.analysis.Some? {
      ratings' := ratings'[row.item.id := row.analysis.value.recommendation];
    }
    if row.pricingType == Randomized {
      predictions' := predictions'[row.item.id := PredictionSummary(row.bestTimeInNext24h.bestPrice, row.bestTimeInNext24h.timeFromNow)];
    }
    TablesAppend(rows, row);
  }

  /** The report's row for each catalog item, as a function of the item. */
  function RowOf(sha: Digest, userId: string, nowMs: int): CatalogItem -> UserItem
  {
    item => UserItemFor(sha, userId, item, nowMs)
  }

  /** `getUserPricingAnalysis`: one pass over the catalog that keeps its length and order and
      fills the three lookup tables in place, each entry written from the row just built. */
  method GetUserPricingAnalysis(sha: Digest, userId: string, catalog: seq<CatalogItem>, nowMs: int)
    returns (r: UserPricing)
    ensures r.userId == userId
    ensures |r.items| == |catalog|
    ensures forall i :: 0 <= i < |catalog| ==> r.items[i] == UserItemFor(sha, userId, catalog[i], nowMs)
    ensures r.prices == PriceTable(r.items)
    ensures r.ratings == RatingTable(r.items)
    ensures r.predictions == PredictionTable(r.items)
  {
    var prices: map<string, int> := map[];
    var predictions: map<string, PredictionSummary> := map[];
    var ratings: map<string, PriceRecommendation> := map[];
    var userItems: seq<UserItem> := [];
    while |userItems| < |catalog|
      invariant Sequences.MapsOver(RowOf(sha, userId, nowMs), catalog, userItems)
      invariant prices == PriceTable(userItems)
      invariant ratings == RatingTable(userItems)
      invariant predictions == PredictionTable(userItems)
      decreases |catalog| - |userItems|
    {
      var row := ReportRow(sha, userId, catalog[|userItems|], nowMs);
      prices, ratings, predictions := RecordRow(userItems, row, prices, ratings, predictions);
      assert row == RowOf(sha, userId, nowMs)(catalog[|userItems|]);
      Sequences.MapsOverAppend(RowOf(sha, userId, nowMs), catalog, userItems, row);
      userItems := userItems + [row];
    }
    r := UserPricing(userId, userItems, prices, predictions, ratings);
  }

  /** What one row of the per-user report promises. The current price is the observed one.
      A fixed item has no analysis and a "Fixed price" window at its own price with no savings.
      A randomized item is analysed at its observed price, its window is the first minimum of
      the next 24 hours and never costs more than now, and the base the analysis reconstructs is
      within one of the catalog's base price. */
  lemma UserItemProperties(sha: Digest, userId: string, item: CatalogItem, nowMs: int)
    ensures var u := UserItemFor(sha, userId, item, nowMs);
      var w := u.bestTimeInNext24h;
      var h := CurrentHour(nowMs);
      && u.item == item
      && u.pricingType == PricingTypeOf(item)
      && u.currentUserPrice == u.observedPrice
      && (u.pricingType == Fixed ==>
            && u.analysis == None
            && u.observedPrice == u.basePrice
            && w == BestWindow(h, u.basePrice, "Fixed price", 0))
      && (u.pricingType == Randomized ==>
            && u.basePrice == item.basePrice
            && u.analysis.Some?
            && u.analysis.value.currentPrice == u.observedPrice
            && w.bestPrice <= u.observedPrice
            && w.savingsFromCurrent == u.observedPrice - w.bestPrice >= 0
            && h <= w.bestHour <= h + WindowHours
            && (w.timeFromNow == "now" <==> w.bestHour == h)
            && (w.bestHour == h ==> w.bestPrice == u.observedPrice))
      && (u.pricingType == Randomized && item.basePrice >= 1 ==>
            && item.basePrice - 1 <= u.analysis.value.basePrice <= item.basePrice + 1
            && u.analysis.value.percentageFromBase.Finite?)
  {
    var a := CalculateActualPrice(sha, userId, item, nowMs);
    if a.pricingType == Randomized {
      BestTimeIsFirstMinimumOfPredictions(sha, userId, item.id, a.observedPrice, DefaultMinPercent, DefaultMaxPercent, WindowHours, nowMs);
      DefaultBoundsGivePositiveBase(sha, userId, item.id, a.observedPrice, nowMs);
      if item.basePrice >= 1 {
        AnalysisOfFreshPrice(sha, userId, item.id, item.basePrice, nowMs);
      }
    }
  }

  /** The spread of sampled prices `getGlobalMarketAnalysis` reports. */
  datatype PriceRange = PriceRange(min: int, max: int, median: int)

  datatype MarketSummary = MarketSummary(price: int, savingsFromBase: int, maxSavingsPercent: Num, priceRange: PriceRange)

  datatype MarketItem = MarketItem(item: CatalogItem, basePrice: int, pricingType: PricingType, globalCheapest: MarketSummary)

  /** The market analysis samples 500 synthetic users over one week of hours. */
  const SampleUsers: int := 500
  const HoursToCheck: int := 168

  /** `Math.min(...s)` on a non-empty list. */
  function MinOf(s: seq<int>): (m: int)
    requires |s| > 0
    ensures m in s
    ensures forall i :: 0 <= i < |s| ==> m <= s[i]
  {
    if |s| == 1 then s[0]
    else
      var rest := MinOf(s[1..]);
      assert forall i :: 1 <= i < |s| ==> s[i] == s[1..][i - 1];
      if s[0] <= rest then s[0] else rest
  }

  /** `Math.max(...s)` on a non-empty list. */
  function MaxOf(s: seq<int>): (m: int)
    requires |s| > 0
    ensures m in s
    ensures forall i :: 0 <= i < |s| ==> s[i] <= m
  {
    if |s| == 1 then s[0]
    else
      var rest := MaxOf(s[1..]);
      assert forall i :: 1 <= i < |s| ==> s[i] == s[1..][i - 1];
      if s[0] >= rest then s[0] else rest
  }

  /** On a sorted list the minimum is the first element and the maximum the last. */
  lemma SortedEnds(s: seq<int>)
    requires |s| > 0 && Sorted(s)
    ensures MinOf(s) == s[0] && MaxOf(s) == s[|s| - 1]
  {
    var lo := MinOf(s);
    var hi := MaxOf(s);
    var i :| 0 <= i < |s| && s[i] == lo;
    var j :| 0 <= j < |s| && s[j] == hi;
    assert s[0] <= s[i] && s[j] <= s[|s| - 1];
  }

  /** The market price table for one item under the default bounds. */
  function DefaultMarket(sha: Digest, item: CatalogItem, nowMs: int): GlobalCheapest
  {
    GlobalCheapestPrice(sha, item.id, item.basePrice, DefaultMinPercent, DefaultMaxPercent, SampleUsers, HoursToCheck, nowMs)
  }

  /** The summary of a randomized entry, from the sampler's result: the cheapest price, the
      savings against the base, that saving as a percentage of the base, and the least,
      greatest and middle sampled prices. */
  function RandomizedSummary(basePrice: int, cheapestData: GlobalCheapest): MarketSummary
    requires |cheapestData.priceDistribution| > 0
  {
    var savingsFromBase := basePrice - cheapestData.cheapestPrice;
    var dist := cheapestData.priceDistribution;
    MarketSummary(cheapestData.cheapestPrice, savingsFromBase, PercentOfBase(savingsFromBase, basePrice),
                  PriceRange(MinOf(dist), MaxOf(dist), dist[|dist| / 2]))
  }

  /** Over a sorted distribution whose prices lie in [lo, hi], and a cheapest price that is the
      smaller of the base and the lowest sample: the range is ordered and within [lo, hi], and
      the cheapest is the smaller of the base and the range's minimum, so the savings are never
      negative. */
  lemma RandomizedSummaryProperties(basePrice: int, cheapestData: GlobalCheapest, lo: int, hi: int)
    requires |cheapestData.priceDistribution| > 0 && Sorted(cheapestData.priceDistribution)
    requires cheapestData.cheapestPrice == Min(basePrice, cheapestData.priceDistribution[0])
    requires forall i :: 0 <= i < |cheapestData.priceDistribution| ==> lo <= cheapestData.priceDistribution[i] <= hi
    ensures var s := RandomizedSummary(basePrice, cheapestData);
      && s.price == Min(basePrice, s.priceRange.min)
      && s.savingsFromBase == basePrice - s.price >= 0
      && s.maxSavingsPercent == PercentOfBase(s.savingsFromBase, basePrice)
      && lo <= s.priceRange.min <= s.priceRange.median <= s.priceRange.max <= hi
  {
    var dist := cheapestData.priceDistribution;
    SortedEnds(dist);
    assert dist[0] <= dist[|dist| / 2] <= dist[|dist| - 1];
  }

  /** One entry of `getGlobalMarketAnalysis`. */
  function MarketItemFor(sha: Digest, item: CatalogItem, nowMs: int): MarketItem
  {
    if PricingTypeOf(item) == Randomized then
      var estimatedBasePrice := item.basePrice;
      var cheapestData := DefaultMarket(sha, item, nowMs);
      GlobalCheapestFromProperties(MarketPrices(sha, item.id, item.basePrice, DefaultMinPercent, DefaultMaxPercent), FakeUserId,
                                   item.basePrice, CurrentHour(nowMs), SampleUsers, HoursToCheck);
      MarketItem(item, estimatedBasePrice, Randomized, RandomizedSummary(estimatedBasePrice, cheapestData))
    else
      var basePrice := if IsTravelStipend(item) then ShellPrice(StipendUsd, DefaultDollarsPerHour) else item.basePrice;
      MarketItem(item, basePrice, Fixed,
                 MarketSummary(basePrice, 0, Finite(0.0), PriceRange(basePrice, basePrice, basePrice)))
  }

  /** `getGlobalMarketAnalysis`: one entry per catalog item, in catalog order. */
  function GlobalMarketAnalysis(sha: Digest, catalog: seq<CatalogItem>, nowMs: int): (r: seq<MarketItem>)
    ensures |r| == |catalog|
    ensures forall i :: 0 <= i < |catalog| ==> r[i] == MarketItemFor(sha, catalog[i], nowMs)
  {
    seq(|catalog|, i requires 0 <= i < |catalog| => MarketItemFor(sha, catalog[i], nowMs))
  }

  /** A fixed entry reports its own price everywhere (the stipend at 16 shells) with no savings. */
  lemma FixedMarketItemProperties(sha: Digest, item: CatalogItem, nowMs: int)
    requires PricingTypeOf(item) == Fixed
    ensures var m := MarketItemFor(sha, item, nowMs);
      var s := m.globalCheapest;
      && m.item == item && m.pricingType == Fixed
      && m.basePrice == (if IsTravelStipend(item) then 16 else item.basePrice)
      && s.price == m.basePrice && s.savingsFromBase == 0 && s.maxSavingsPercent == Finite(0.0)
      && s.priceRange == PriceRange(m.basePrice, m.basePrice, m.basePrice)
  {
    if IsTravelStipend(item) {
      TravelStipendIsSixteenShells();
    }
  }

  /** A randomized entry with a non-negative base: its cheapest price is the smaller of the base
      and the cheapest sample, its savings are never negative, and its range is ordered and lies
      in the band the price map allows around the base. */
  lemma RandomizedMarketItemProperties(sha: Digest, item: CatalogItem, nowMs: int)
    requires PricingTypeOf(item) == Randomized && item.basePrice >= 0
    ensures var m := MarketItemFor(sha, item, nowMs);
      var s := m.globalCheapest;
      var b := SafeBounds(DefaultMinPercent, DefaultMaxPercent);
      && m.item == item && m.pricingType == Randomized && m.basePrice == item.basePrice
      && s.price == Min(item.basePrice, s.priceRange.min)
      && s.savingsFromBase == item.basePrice - s.price >= 0
      && s.maxSavingsPercent == PercentOfBase(s.savingsFromBase, item.basePrice)
      && Max(1, MinPrice(item.basePrice, b)) <= s.priceRange.min <= s.priceRange.median
      && s.priceRange.median <= s.priceRange.max <= Max(1, MaxPrice(item.basePrice, b))
  {
    var prices := MarketPrices(sha, item.id, item.basePrice, DefaultMinPercent, DefaultMaxPercent);
    var h := CurrentHour(nowMs);
    var b := SafeBounds(DefaultMinPercent, DefaultMaxPercent);
    var r := DefaultMarket(sha, item, nowMs);
    GlobalCheapestFromProperties(prices, FakeUserId, item.basePrice, h, SampleUsers, HoursToCheck);
    CheapestIsBaseOrLowestSample(prices, FakeUserId, item.basePrice, h, SampleUsers, HoursToCheck);
    DistributionWithinBand(sha, item.id, item.basePrice, DefaultMinPercent, DefaultMaxPercent, SampleUsers, HoursToCheck, nowMs);
    RandomizedSummaryProperties(item.basePrice, r, Max(1, MinPrice(item.basePrice, b)), Max(1, MaxPrice(item.basePrice, b)));
  }

  /** `items.find(i => i.id === itemId)`: the first entry with the id. */
  function FindItem(catalog: seq<CatalogItem>, itemId: string): (r: Option<CatalogItem>)
    ensures r.None? <==> forall i :: 0 <= i < |catalog| ==> catalog[i].id != itemId
    ensures r.Some? ==>
      exists k :: 0 <= k < |catalog| && catalog[k] == r.value && r.value.id == itemId
                  && forall j :: 0 <= j < k ==> catalog[j].id != itemId
  {
    if catalog == [] then None
    else if catalog[0].id == itemId then Some(catalog[0])
    else
      var rest := FindItem(catalog[1..], itemId);
      assert forall i :: 1 <= i < |catalog| ==> catalog[i] == catalog[1..][i - 1];
      if rest.Some? then
        var k :| 0 <= k < |catalog[1..]| && catalog[1..][k] == rest.value && rest.value.id == itemId
                 && forall j :: 0 <= j < k ==> catalog[1..][j].id != itemId;
        assert catalog[k + 1] == rest.value;
        rest
      else
        rest
  }

  /** The `summary` of a forecast. */
  datatype ForecastSummary = ForecastSummary(
    currentPrice: int, bestPriceInPeriod: int, potentialSavings: int, recommendedAction: Action, timeToWait: string)

  /** What `getItemPricePrediction` returns for an item it finds. */
  datatype ItemReport =
    | FixedReport(item: CatalogItem, currentUserPrice: int, message: string)
    | RandomizedReport(item: CatalogItem, currentUserPrice: int, currentAnalysis: PriceAnalysis,
                       predictions: seq<Prediction>, bestTime: BestTime, summary: ForecastSummary)

  const FixedPriceMessage: string := "This item has a fixed price - it does not change over time"

  /** `getItemPricePrediction`: an error for an unknown id, only a message for a fixed item, and
      otherwise the forecast, best time and analysis at the user's observed price. */
  function ItemPricePrediction(sha: Digest, userId: string, itemId: string, hoursAhead: int,
                               catalog: seq<CatalogItem>, nowMs: int): (r: Result<ItemReport>)
    ensures r.Failure? <==> forall i :: 0 <= i < |catalog| ==> catalog[i].id != itemId
    ensures r.Failure? ==> r.error == "Item " + itemId + " not found"
    ensures r.Success? ==>
      && r.value.item.id == itemId
      && (r.value.FixedReport? <==> PricingTypeOf(r.value.item) == Fixed)
      && (r.value.FixedReport? ==> r.value.message == FixedPriceMessage)
  {
    var found := FindItem(catalog, itemId);
    if found.None? then Failure("Item " + itemId + " not found")
    else
      var item := found.value;
      var actual := CalculateActualPrice(sha, userId, item, nowMs);
      if actual.pricingType == Fixed then
        Success(FixedReport(item, actual.observedPrice, FixedPriceMessage))
      else
        var observedPrice := actual.observedPrice;
        var predictions := Predictions(sha, userId, itemId, observedPrice, DefaultMinPercent, DefaultMaxPercent, hoursAhead, nowMs);
        var bestTime := BestTimeToBuy(sha, userId, itemId, observedPrice, DefaultMinPercent, DefaultMaxPercent, hoursAhead, nowMs);
        var currentAnalysis := AnalyzePriceAndRecommend(sha, userId, itemId, observedPrice, DefaultMinPercent, DefaultMaxPercent, nowMs);
        Success(RandomizedReport(item, observedPrice, currentAnalysis, predictions, bestTime,
          ForecastSummary(currentAnalysis.currentPrice, bestTime.bestPrice, bestTime.savingsFromCurrent,
                          currentAnalysis.recommendation.action, bestTime.timeFromNow)))
  }

  /** A forecast for a randomized item is about the first catalog entry with the id, priced for
      the user now. It has one prediction per hour ahead. The summary's savings are the best
      time's savings, which are never negative. Its best price is no dearer than any
      prediction, and it waits "now" exactly when no later hour is cheaper. */
  lemma ForecastProperties(sha: Digest, userId: string, itemId: string, hoursAhead: int,
                           catalog: seq<CatalogItem>, nowMs: int)
    requires exists i :: 0 <= i < |catalog| && catalog[i].id == itemId
    ensures var r := ItemPricePrediction(sha, userId, itemId, hoursAhead, catalog, nowMs);
      && r.Success?
      && r.value.item == FindItem(catalog, itemId).value
      && (r.value.RandomizedReport? ==>
            var v := r.value;
            && v.currentUserPrice == RandomizedPrice(sha, userId, itemId, v.item.basePrice, DefaultMinPercent, DefaultMaxPercent, nowMs)
            && v.summary.currentPrice == v.currentUserPrice
            && |v.predictions| == Max(0, hoursAhead)
            && v.summary.potentialSavings == v.bestTime.savingsFromCurrent >= 0
            && v.summary.bestPriceInPeriod == v.bestTime.bestPrice <= v.currentUserPrice
            && (forall k :: 0 <= k < |v.predictions| ==> v.summary.bestPriceInPeriod <= v.predictions[k].price)
            && v.summary.recommendedAction == v.currentAnalysis.recommendation.action
            && (v.summary.timeToWait == "now" <==> v.bestTime.bestHour == CurrentHour(nowMs)))
  {
    var found := FindItem(catalog, itemId);
    var item := found.value;
    var actual := CalculateActualPrice(sha, userId, item, nowMs);
    if actual.pricingType == Randomized {
      BestTimeIsFirstMinimumOfPredictions(sha, userId, itemId, actual.observedPrice, DefaultMinPercent, DefaultMaxPercent, hoursAhead, nowMs);
      PredictionsShape(sha, userId, itemId, actual.observedPrice, DefaultMinPercent, DefaultMaxPercent, hoursAhead, nowMs);
    }
  }

  /** `formatPercentage` around the digits `toFixed(1)` renders: a "+" in front exactly when
      the percentage is positive, and a "%" at the end. */
  function FormatPercentage(percent: real, fixedDigits: string): (s: string)
    ensures |s| > 0 && s[|s| - 1] == '%'
    ensures percent > 0.0 ==> s[0] == '+' && s[1..] == fixedDigits + "%"
    ensures percent <= 0.0 ==> s == fixedDigits + "%"
  {
    (if percent > 0.0 then "+" else "") + fixedDigits + "%"
  }
}
