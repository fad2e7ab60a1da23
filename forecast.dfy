/** The look-ahead built on the price map: `predictFuturePrices`, which prices each of the
    next hours from one reconstructed base, and `findBestTimeToBuy`, a running minimum over
    the same hours (src/lib/pricing-algorithms.ts). */
module Forecast {
  import opened Numeric
  import opened Text
  import opened HourlyHash
  import opened Pricing
  import opened Scan
  import opened Recommendation
  import Sequences

  /** The label for a moment `hours` whole hours ahead: "now", "1 hour", "N hours" below a
      day, and whole days ("1 day", "N days") from 24 hours on. The predictor's copy of this
      chain lacks the "now" case, which it never reaches (its offsets start at 1). */
  function TimeLabel(hours: int): (s: string)
    ensures s == "now" <==> hours == 0
    ensures 0 < hours < 24 ==> |s| > |DecimalString(hours)| && s[..|DecimalString(hours)|] == DecimalString(hours)
    ensures hours >= 24 ==> |s| > |DecimalString(hours / 24)| && s[..|DecimalString(hours / 24)|] == DecimalString(hours / 24)
    ensures hours >= 0 ==> (s[|s| - 1] == 's' <==> hours >= 2 && !(24 <= hours < 48))
  {
    if hours == 0 then "now"
    else if hours == 1 then "1 hour"
    else if hours < 24 then DecimalString(hours) + " hours"
    else
      var days := hours / 24;
      DecimalString(days) + " day" + (if days > 1 then "s" else "")
  }

  /** One entry of `predictFuturePrices`. */
  datatype Prediction = Prediction(
    hour: int, timestamp: int, price: int, percentageFromBase: Num, timeFromNow: string)

  /** The price the item has for the user at each hour under the price map, for one base. */
  function PriceSchedule(sha: Digest, userId: string, itemId: string, basePrice: int,
                         minPercent: int, maxPercent: int): int -> int
  {
    hour => PriceAtHour(sha, userId, itemId, basePrice, minPercent, maxPercent, hour)
  }

  /** The base price every prediction and the best-time search start from: the observed
      price reversed at the current hour. */
  function ReconstructedBase(sha: Digest, userId: string, itemId: string, observedPrice: int,
                             minPercent: int, maxPercent: int, nowMs: int): int
  {
    ReverseEngineerBasePrice(sha, userId, itemId, observedPrice, minPercent, maxPercent, CurrentHour(nowMs))
  }

  /** The entry i hours after currentHour (the body of the predictor's loop). */
  function PredictionAt(schedule: int -> int, basePrice: int, currentHour: int, i: int): Prediction
  {
    var hour := currentHour + i;
    var price := schedule(hour);
    Prediction(hour, hour * MsPerHour, price, PercentOfBase(price, basePrice), TimeLabel(i))
  }

  /** The k-th pushed entry, for k from 0: the entry k + 1 hours after currentHour. */
  function PredictionStep(schedule: int -> int, basePrice: int, currentHour: int): int -> Prediction
  {
    k => PredictionAt(schedule, basePrice, currentHour, k + 1)
  }

  /** The entries 1 to hoursAhead hours after currentHour. */
  function PredictionsFrom(schedule: int -> int, basePrice: int, currentHour: int, hoursAhead: int): seq<Prediction>
  {
    seq(Max(0, hoursAhead), PredictionStep(schedule, basePrice, currentHour))
  }

  /** What `predictFuturePrices` returns at the instant nowMs. */
  function Predictions(sha: Digest, userId: string, itemId: string, observedPrice: int,
                       minPercent: int, maxPercent: int, hoursAhead: int, nowMs: int): seq<Prediction>
  {
    var basePrice := ReconstructedBase(sha, userId, itemId, observedPrice, minPercent, maxPercent, nowMs);
    PredictionsFrom(PriceSchedule(sha, userId, itemId, basePrice, minPercent, maxPercent),
                    basePrice, CurrentHour(nowMs), hoursAhead)
  }

  /** The predictor's loop for one schedule and base: one entry pushed per hour ahead. */
  method PredictFrom(schedule: int -> int, basePrice: int, currentHour: int, hoursAhead: int)
    returns (predictions: seq<Prediction>)
    ensures predictions == PredictionsFrom(schedule, basePrice, currentHour, hoursAhead)
  {
    predictions := [];
    var i := 1;
    while i <= hoursAhead
      invariant 1 <= i <= Max(0, hoursAhead) + 1
      invariant predictions == PredictionsFrom(schedule, basePrice, currentHour, i - 1)
    {
      PredictOneMoreHour(schedule, basePrice, currentHour, i);
      predictions := predictions + [PredictionAt(schedule, basePrice, currentHour, i)];
      i := i + 1;
    }
  }

  /** The predictions through hour i are those through hour i - 1 followed by hour i. */
  lemma PredictOneMoreHour(schedule: int -> int, basePrice: int, currentHour: int, i: int)
    requires i >= 1
    ensures PredictionsFrom(schedule, basePrice, currentHour, i)
         == PredictionsFrom(schedule, basePrice, currentHour, i - 1) + [PredictionAt(schedule, basePrice, currentHour, i)]
  {
    var f := PredictionStep(schedule, basePrice, currentHour);
    assert PredictionsFrom(schedule, basePrice, currentHour, i) == seq(i, f);
    assert PredictionsFrom(schedule, basePrice, currentHour, i - 1) == seq(i - 1, f);
    Sequences.Extend(i, f);
    assert f(i - 1) == PredictionAt(schedule, basePrice, currentHour, i);
  }

  /** `predictFuturePrices`: reverse the observed price once, then run the loop over the price
      map for that base. */
  method PredictFuturePrices(sha: Digest, userId: string, itemId: string, observedPrice: int,
                             minPercent: int, maxPercent: int, hoursAhead: int, nowMs: int)
    returns (predictions: seq<Prediction>)
    ensures predictions == Predictions(sha, userId, itemId, observedPrice, minPercent, maxPercent, hoursAhead, nowMs)
  {
    var currentHour := CurrentHour(nowMs);
    var basePrice := ReverseEngineerBasePrice(sha, userId, itemId, observedPrice, minPercent, maxPercent, currentHour);
    var schedule := PriceSchedule(sha, userId, itemId, basePrice, minPercent, maxPercent);
    predictions := PredictFrom(schedule, basePrice, currentHour, hoursAhead);
  }

  /** The shape the predictor promises for any price schedule: exactly hoursAhead entries
      (none for a non-positive count), one per following hour in ascending order, each
      stamped with the start of its hour, labelled by its distance, priced by the schedule
      and compared with the one base. */
  lemma PredictionsFromShape(schedule: int -> int, basePrice: int, currentHour: int, hoursAhead: int)
    ensures var ps := PredictionsFrom(schedule, basePrice, currentHour, hoursAhead);
      && |ps| == Max(0, hoursAhead)
      && (forall k :: 0 <= k < |ps| ==>
            && ps[k].hour == currentHour + k + 1
            && ps[k].timestamp == ps[k].hour * MsPerHour
            && ps[k].timeFromNow == TimeLabel(k + 1) && ps[k].timeFromNow != "now"
            && ps[k].price == schedule(ps[k].hour)
            && ps[k].percentageFromBase == PercentOfBase(ps[k].price, basePrice))
      && (forall j, k :: 0 <= j < k < |ps| ==> ps[j].hour < ps[k].hour)
  {
  }

  /** The same shape for the predictor itself: every entry priced by the price map at its
      hour from the one reconstructed base. */
  lemma PredictionsShape(sha: Digest, userId: string, itemId: string, observedPrice: int,
                         minPercent: int, maxPercent: int, hoursAhead: int, nowMs: int)
    ensures var ps := Predictions(sha, userId, itemId, observedPrice, minPercent, maxPercent, hoursAhead, nowMs);
      var base := ReconstructedBase(sha, userId, itemId, observedPrice, minPercent, maxPercent, nowMs);
      && |ps| == Max(0, hoursAhead)
      && (forall k :: 0 <= k < |ps| ==>
            && ps[k].hour == CurrentHour(nowMs) + k + 1
            && ps[k].timestamp == ps[k].hour * MsPerHour
            && ps[k].timeFromNow == TimeLabel(k + 1) && ps[k].timeFromNow != "now"
            && ps[k].price == PriceAtHour(sha, userId, itemId, base, minPercent, maxPercent, ps[k].hour)
            && ps[k].percentageFromBase == PercentOfBase(ps[k].price, base))
      && (forall j, k :: 0 <= j < k < |ps| ==> ps[j].hour < ps[k].hour)
  {
    var base := ReconstructedBase(sha, userId, itemId, observedPrice, minPercent, maxPercent, nowMs);
    PredictionsFromShape(PriceSchedule(sha, userId, itemId, base, minPercent, maxPercent), base, CurrentHour(nowMs), hoursAhead);
  }

  /** For a positive observed price under the default bounds, every prediction's percentage is
      finite and every predicted price lies in the band around the reconstructed base. */
  lemma PredictionsWithinBand(sha: Digest, userId: string, itemId: string, observedPrice: int,
                              hoursAhead: int, nowMs: int)
    requires observedPrice >= 1
    ensures var ps := Predictions(sha, userId, itemId, observedPrice, DefaultMinPercent, DefaultMaxPercent, hoursAhead, nowMs);
      var base := ReconstructedBase(sha, userId, itemId, observedPrice, DefaultMinPercent, DefaultMaxPercent, nowMs);
      var b := SafeBounds(DefaultMinPercent, DefaultMaxPercent);
      && base >= 1
      && forall k :: 0 <= k < |ps| ==>
           ps[k].percentageFromBase.Finite?
           && Max(1, MinPrice(base, b)) <= ps[k].price <= Max(1, MaxPrice(base, b))
  {
    DefaultBoundsGivePositiveBase(sha, userId, itemId, observedPrice, nowMs);
    PredictionsShape(sha, userId, itemId, observedPrice, DefaultMinPercent, DefaultMaxPercent, hoursAhead, nowMs);
  }

  /** When the observed price was generated this hour from basePrice and the hour's multiplier
      is at least 1, the predictions are the true future prices of basePrice. */
  lemma PredictionsOfFreshPriceAreExact(sha: Digest, userId: string, itemId: string, basePrice: int,
                                        hoursAhead: int, nowMs: int)
    requires basePrice >= 1
    requires Multiplier(sha, userId, itemId, DefaultMinPercent, DefaultMaxPercent, CurrentHour(nowMs)) >= 1.0
    ensures var p := RandomizedPrice(sha, userId, itemId, basePrice, DefaultMinPercent, DefaultMaxPercent, nowMs);
      var ps := Predictions(sha, userId, itemId, p, DefaultMinPercent, DefaultMaxPercent, hoursAhead, nowMs);
      forall k :: 0 <= k < |ps| ==>
        ps[k].price == PriceAtHour(sha, userId, itemId, basePrice, DefaultMinPercent, DefaultMaxPercent, ps[k].hour)
  {
    var p := RandomizedPrice(sha, userId, itemId, basePrice, DefaultMinPercent, DefaultMaxPercent, nowMs);
    RoundTripExact(sha, userId, itemId, basePrice, DefaultMinPercent, DefaultMaxPercent, CurrentHour(nowMs));
    PredictionsShape(sha, userId, itemId, p, DefaultMinPercent, DefaultMaxPercent, hoursAhead, nowMs);
  }

  /** The result of `findBestTimeToBuy`. */
  datatype BestTime = BestTime(
    bestHour: int, bestPrice: int, bestTimestamp: int, timeFromNow: string,
    savingsFromCurrent: int, currentPrice: int)

  /** The hours the search visits, in visiting order, as candidates for the running minimum. */
  function FutureQuotes(schedule: int -> int, currentHour: int, hoursAhead: int): seq<Quote<()>>
  {
    seq(Max(0, hoursAhead), QuoteStep(schedule, currentHour))
  }

  /** The k-th visited candidate, for k from 0: the hour k + 1 hours after currentHour. */
  function QuoteStep(schedule: int -> int, currentHour: int): int -> Quote<()>
  {
    k => Quote(schedule(currentHour + k + 1), currentHour + k + 1, ())
  }

  /** The running minimum from the observed price at currentHour over the next hoursAhead hours. */
  function BestTimeFrom(schedule: int -> int, observedPrice: int,
                        currentHour: int, hoursAhead: int): BestTime
  {
    var best := Cheapest(Quote(observedPrice, currentHour, ()), FutureQuotes(schedule, currentHour, hoursAhead));
    BestTime(best.hour, best.price, best.hour * MsPerHour, TimeLabel(best.hour - currentHour),
             observedPrice - best.price, observedPrice)
  }

  /** What `findBestTimeToBuy` returns at the instant nowMs. */
  function BestTimeToBuy(sha: Digest, userId: string, itemId: string, observedPrice: int,
                         minPercent: int, maxPercent: int, hoursAhead: int, nowMs: int): BestTime
  {
    var basePrice := ReconstructedBase(sha, userId, itemId, observedPrice, minPercent, maxPercent, nowMs);
    BestTimeFrom(PriceSchedule(sha, userId, itemId, basePrice, minPercent, maxPercent),
                 observedPrice, CurrentHour(nowMs), hoursAhead)
  }

  /** The search's loop for one schedule: keep the best price and hour seen so far, replacing
      them only on a strictly lower price. */
  method FindBestFrom(schedule: int -> int, observedPrice: int, currentHour: int, hoursAhead: int)
    returns (best: BestTime)
    ensures best == BestTimeFrom(schedule, observedPrice, currentHour, hoursAhead)
  {
    ghost var init := Quote(observedPrice, currentHour, ());
    var bestPrice := observedPrice;
    var bestHour := currentHour;
    var i := 1;
    while i <= hoursAhead
      invariant 1 <= i <= Max(0, hoursAhead) + 1
      invariant Quote(bestPrice, bestHour, ()) == Cheapest(init, FutureQuotes(schedule, currentHour, i - 1))
    {
      var futureHour := currentHour + i;
      var price := schedule(futureHour);
      ScanOneMoreHour(schedule, init, currentHour, i);
      if price < bestPrice {
        bestPrice := price;
        bestHour := futureHour;
      }
      i := i + 1;
    }
    assert FutureQuotes(schedule, currentHour, i - 1) == FutureQuotes(schedule, currentHour, hoursAhead) by {
      assert Max(0, i - 1) == Max(0, hoursAhead);
    }
    var hoursFromNow := bestHour - currentHour;
    best := BestTime(bestHour, bestPrice, bestHour * MsPerHour, TimeLabel(hoursFromNow),
                     observedPrice - bestPrice, observedPrice);
  }

  /** The search through hour i is the search through hour i - 1 followed by hour i. */
  lemma ScanOneMoreHour(schedule: int -> int, init: Quote<()>, currentHour: int, i: int)
    requires i >= 1
    ensures var q := Quote(schedule(currentHour + i), currentHour + i, ());
      var best := Cheapest(init, FutureQuotes(schedule, currentHour, i - 1));
      Cheapest(init, FutureQuotes(schedule, currentHour, i)) == if q.price < best.price then q else best
  {
    var f := QuoteStep(schedule, currentHour);
    var q := Quote(schedule(currentHour + i), currentHour + i, ());
    assert FutureQuotes(schedule, currentHour, i) == seq(i, f);
    assert FutureQuotes(schedule, currentHour, i - 1) == seq(i - 1, f);
    Sequences.Extend(i, f);
    assert f(i - 1) == q;
    CheapestAppend(init, seq(i - 1, f), q);
  }

  /** `findBestTimeToBuy`: reverse the observed price once, then search the price map for
      that base. */
  method FindBestTimeToBuy(sha: Digest, userId: string, itemId: string, observedPrice: int,
                           minPercent: int, maxPercent: int, hoursAhead: int, nowMs: int)
    returns (best: BestTime)
    ensures best == BestTimeToBuy(sha, userId, itemId, observedPrice, minPercent, maxPercent, hoursAhead, nowMs)
  {
    var currentHour := CurrentHour(nowMs);
    var basePrice := ReverseEngineerBasePrice(sha, userId, itemId, observedPrice, minPercent, maxPercent, currentHour);
    var schedule := PriceSchedule(sha, userId, itemId, basePrice, minPercent, maxPercent);
    best := FindBestFrom(schedule, observedPrice, currentHour, hoursAhead);
  }

  /** For any price schedule, the best time is the first minimum of the observed price followed
      by the predicted prices: never dearer than the current price (so the savings are never
      negative), no dearer than any prediction, "now" exactly when no prediction is strictly
      cheaper, and otherwise the earliest predicted hour strictly cheaper than all before it. */
  lemma {:induction false} BestTimeFromIsFirstMinimum(schedule: int -> int, basePrice: int,
                                                      observedPrice: int, h: int, hoursAhead: int)
    ensures var r := BestTimeFrom(schedule, observedPrice, h, hoursAhead);
      var ps := PredictionsFrom(schedule, basePrice, h, hoursAhead);
      && r.currentPrice == observedPrice
      && r.bestPrice <= observedPrice && r.savingsFromCurrent == observedPrice - r.bestPrice >= 0
      && h <= r.bestHour <= h + Max(0, hoursAhead)
      && r.bestTimestamp == r.bestHour * MsPerHour
      && (forall k :: 0 <= k < |ps| ==> r.bestPrice <= ps[k].price)
      && (r.timeFromNow == "now" <==> r.bestHour == h)
      && (r.bestHour == h ==> r.bestPrice == observedPrice)
      && (r.bestHour != h ==>
            exists k :: 0 <= k < |ps| && ps[k].hour == r.bestHour && ps[k].price == r.bestPrice
                        && r.bestPrice < observedPrice
                        && forall j :: 0 <= j < k ==> r.bestPrice < ps[j].price)
  {
    var ps := PredictionsFrom(schedule, basePrice, h, hoursAhead);
    var init := Quote(observedPrice, h, ());
    var quotes := FutureQuotes(schedule, h, hoursAhead);
    QuotesMatchPredictions(schedule, basePrice, h, hoursAhead);
    var q := Cheapest(init, quotes);
    CheapestIsFirstMinimum(init, quotes);
    var r := BestTimeFrom(schedule, observedPrice, h, hoursAhead);
    assert r.bestHour == q.hour && r.bestPrice == q.price;
    if q != init {
      var k :| 0 <= k < |quotes| && q == quotes[k] && q.price < init.price
               && forall j :: 0 <= j < k ==> q.price < quotes[j].price;
      assert ps[k].hour == r.bestHour;
    }
  }

  /** The search visits the predicted hours and prices, in the predictor's order. */
  lemma QuotesMatchPredictions(schedule: int -> int, basePrice: int, h: int, hoursAhead: int)
    ensures var ps := PredictionsFrom(schedule, basePrice, h, hoursAhead);
      var quotes := FutureQuotes(schedule, h, hoursAhead);
      && |quotes| == |ps|
      && forall k :: 0 <= k < |ps| ==>
           quotes[k].price == ps[k].price && quotes[k].hour == ps[k].hour == h + k + 1
  {
  }

  /** The same for `findBestTimeToBuy` against `predictFuturePrices` at the same instant. */
  lemma BestTimeIsFirstMinimumOfPredictions(sha: Digest, userId: string, itemId: string, observedPrice: int,
                                            minPercent: int, maxPercent: int, hoursAhead: int, nowMs: int)
    ensures var r := BestTimeToBuy(sha, userId, itemId, observedPrice, minPercent, maxPercent, hoursAhead, nowMs);
      var ps := Predictions(sha, userId, itemId, observedPrice, minPercent, maxPercent, hoursAhead, nowMs);
      var h := CurrentHour(nowMs);
      && r.currentPrice == observedPrice
      && r.bestPrice <= observedPrice && r.savingsFromCurrent == observedPrice - r.bestPrice >= 0
      && h <= r.bestHour <= h + Max(0, hoursAhead)
      && r.bestTimestamp == r.bestHour * MsPerHour
      && (forall k :: 0 <= k < |ps| ==> r.bestPrice <= ps[k].price)
      && (r.timeFromNow == "now" <==> r.bestHour == h)
      && (r.bestHour == h ==> r.bestPrice == observedPrice)
      && (r.bestHour != h ==>
            exists k :: 0 <= k < |ps| && ps[k].hour == r.bestHour && ps[k].price == r.bestPrice
                        && r.bestPrice < observedPrice
                        && forall j :: 0 <= j < k ==> r.bestPrice < ps[j].price)
  {
    var base := ReconstructedBase(sha, userId, itemId, observedPrice, minPercent, maxPercent, nowMs);
    BestTimeFromIsFirstMinimum(PriceSchedule(sha, userId, itemId, base, minPercent, maxPercent),
                               base, observedPrice, CurrentHour(nowMs), hoursAhead);
  }
}
