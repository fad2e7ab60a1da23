/** The 7-tier buy/wait recommendation and the price analysis that feeds it
    (`generateRecommendation` and `analyzePriceAndRecommend` in src/lib/pricing-algorithms.ts). */
module Recommendation {
  import opened Numeric
  import opened Text
  import opened HourlyHash
  import opened Pricing

  datatype Action = BuyNow | GoodDeal | FairPrice | Wait | Expensive | Overpriced | DontBuy

  /** The reason text, abstracted: the tier whose sentence it starts with (the sentences embed
      `toFixed` renderings, which are not modelled) and the suffix appended near the hour's end. */
  datatype Reason = Reason(tier: int, suffix: string)

  datatype PriceRecommendation = PriceRecommendation(
    score: int, action: Action, color: string, reason: Reason, confidence: int)

  /** Upper percentage bounds of tiers 1 to 6; anything above the last is tier 7. */
  const Thresholds: seq<real> := [92.0, 96.0, 100.0, 104.0, 108.0, 110.0]

  /** The score chosen by the first-match threshold chain; NaN and +Infinity fail every
      `<=` test and land in tier 7. */
  function Score(percentageFromBase: Num): (s: int)
    ensures 1 <= s <= 7
  {
    if AtMost(percentageFromBase, 92.0) then 1
    else if AtMost(percentageFromBase, 96.0) then 2
    else if AtMost(percentageFromBase, 100.0) then 3
    else if AtMost(percentageFromBase, 104.0) then 4
    else if AtMost(percentageFromBase, 108.0) then 5
    else if AtMost(percentageFromBase, 110.0) then 6
    else 7
  }

  /** How many of the thresholds ts lie strictly below x. */
  function CountBelow(ts: seq<real>, x: real): (n: nat)
    ensures n <= |ts|
  {
    if ts == [] then 0 else (if ts[0] < x then 1 else 0) + CountBelow(ts[1..], x)
  }

  lemma {:induction false} CountBelowMonotone(ts: seq<real>, x: real, y: real)
    requires x <= y
    ensures CountBelow(ts, x) <= CountBelow(ts, y)
  {
    if ts != [] {
      CountBelowMonotone(ts[1..], x, y);
    }
  }

  /** Independent reading of the table: a finite percentage's score is one more than the
      number of tier bounds it exceeds. */
  lemma ScoreCountsThresholdsExceeded(x: real)
    ensures Score(Finite(x)) == 1 + CountBelow(Thresholds, x)
  {
    var t5 := [110.0];
    var t4 := [108.0] + t5;
    var t3 := [104.0] + t4;
    var t2 := [100.0] + t3;
    var t1 := [96.0] + t2;
    assert t5[1..] == [] && t4[1..] == t5 && t3[1..] == t4 && t2[1..] == t3 && t1[1..] == t2;
    assert Thresholds == [92.0] + t1 && Thresholds[1..] == t1;
    assert CountBelow(t5, x) == (if 110.0 < x then 1 else 0);
    assert CountBelow(t4, x) == (if 108.0 < x then 1 else 0) + CountBelow(t5, x);
    assert CountBelow(t3, x) == (if 104.0 < x then 1 else 0) + CountBelow(t4, x);
    assert CountBelow(t2, x) == (if 100.0 < x then 1 else 0) + CountBelow(t3, x);
    assert CountBelow(t1, x) == (if 96.0 < x then 1 else 0) + CountBelow(t2, x);
  }

  /** A higher percentage never gets a better (lower) score. */
  lemma ScoreMonotone(x: real, y: real)
    requires x <= y
    ensures Score(Finite(x)) <= Score(Finite(y))
  {
    ScoreCountsThresholdsExceeded(x);
    ScoreCountsThresholdsExceeded(y);
    CountBelowMonotone(Thresholds, x, y);
  }

  function ActionOf(score: int): Action
    requires 1 <= score <= 7
  {
    match score
    case 1 => BuyNow
    case 2 => GoodDeal
    case 3 => FairPrice
    case 4 => Wait
    case 5 => Expensive
    case 6 => Overpriced
    case _ => DontBuy
  }

  /** Every action belongs to exactly one score: ActionOf is a bijection onto Action. */
  function ScoreOf(action: Action): (s: int)
    ensures 1 <= s <= 7 && ActionOf(s) == action
    ensures forall t :: 1 <= t <= 7 && ActionOf(t) == action ==> t == s
  {
    match action
    case BuyNow => 1
    case GoodDeal => 2
    case FairPrice => 3
    case Wait => 4
    case Expensive => 5
    case Overpriced => 6
    case DontBuy => 7
  }

  function ColorOf(score: int): string
    requires 1 <= score <= 7
  {
    match score
    case 1 => "#00C851"
    case 2 => "#2BBBAD"
    case 3 => "#4285F4"
    case 4 => "#FF6F00"
    case 5 => "#FF5722"
    case 6 => "#F44336"
    case _ => "#9C27B0"
  }

  function BaseConfidence(score: int): int
    requires 1 <= score <= 7
  {
    match score
    case 1 => 95
    case 2 => 85
    case 3 => 75
    case 4 => 70
    case 5 => 80
    case 6 => 90
    case _ => 95
  }

  /** The price is about to change and the current one is not a deal. */
  predicate ChangeSoon(minutesUntilChange: int, score: int)
  {
    minutesUntilChange < 10 && score >= 4
  }

  function ChangeNote(minutesUntilChange: int): (note: string)
    ensures note != ""
  {
    " (price changes in " + DecimalString(minutesUntilChange) + "min)"
  }

  /** `generateRecommendation`. The price arguments the source also passes are unused there. */
  function GenerateRecommendation(percentageFromBase: Num, minutesUntilChange: int): (r: PriceRecommendation)
    ensures r.score == Score(percentageFromBase)
    ensures r.action == ActionOf(r.score) && r.color == ColorOf(r.score) && r.reason.tier == r.score
    ensures BaseConfidence(r.score) <= r.confidence <= 100
    ensures r.confidence > BaseConfidence(r.score) <==> ChangeSoon(minutesUntilChange, r.score)
    ensures r.reason.suffix != "" <==> ChangeSoon(minutesUntilChange, r.score)
    ensures ChangeSoon(minutesUntilChange, r.score) ==>
              r.reason.suffix == ChangeNote(minutesUntilChange)
              && r.confidence == Min(100, BaseConfidence(r.score) + 10)
  {
    var score := Score(percentageFromBase);
    var bumped := ChangeSoon(minutesUntilChange, score);
    var confidence := if bumped then BaseConfidence(score) + 10 else BaseConfidence(score);
    var suffix := if bumped then ChangeNote(minutesUntilChange) else "";
    PriceRecommendation(score, ActionOf(score), ColorOf(score), Reason(score, suffix), Min(100, confidence))
  }

  /** The time left before the hourly price changes. */
  datatype Countdown = Countdown(hoursUntilChange: int, minutesUntilChange: int)

  /** Lines 181-188: whole hours and whole minutes (modulo the hour) until the next hour starts. */
  function TimeUntilChange(nowMs: int): (c: Countdown)
    ensures c.hoursUntilChange == 0 || c.hoursUntilChange == 1
    ensures 0 <= c.minutesUntilChange <= 59
    ensures c.hoursUntilChange == 1 <==> nowMs % MsPerHour == 0
    ensures c.hoursUntilChange == 1 ==> c.minutesUntilChange == 0
    ensures c.hoursUntilChange == 0 ==>
              var left := (CurrentHour(nowMs) + 1) * MsPerHour - nowMs;
              c.minutesUntilChange * MsPerMinute <= left < (c.minutesUntilChange + 1) * MsPerMinute
  {
    var currentHour := CurrentHour(nowMs);
    var timeUntilNextHour := (currentHour + 1) * MsPerHour - nowMs;
    assert 0 < timeUntilNextHour <= MsPerHour;
    assert nowMs % MsPerHour == 0 <==> timeUntilNextHour == MsPerHour by {
      assert nowMs == currentHour * MsPerHour + nowMs % MsPerHour;
    }
    Countdown(timeUntilNextHour / MsPerHour, (timeUntilNextHour % MsPerHour) / MsPerMinute)
  }

  /** Exactly on an hour boundary the source reports 0 minutes left, although the price holds
      for the whole next hour, so a score of 4 or more gets the "changes soon" bump. */
  lemma OnTheHourCountsAsChangingSoon(nowMs: int, percentageFromBase: Num)
    requires nowMs % MsPerHour == 0
    requires Score(percentageFromBase) >= 4
    ensures TimeUntilChange(nowMs) == Countdown(1, 0)
    ensures GenerateRecommendation(percentageFromBase, TimeUntilChange(nowMs).minutesUntilChange).reason.suffix
         == ChangeNote(0)
  {
  }

  datatype PriceAnalysis = PriceAnalysis(
    currentPrice: int,
    basePrice: int,
    minPossiblePrice: int,
    maxPossiblePrice: int,
    percentageFromBase: Num,
    hoursUntilChange: int,
    minutesUntilChange: int,
    recommendation: PriceRecommendation)

  /** `(price / basePrice) * 100` as JavaScript evaluates it. */
  function PercentOfBase(price: int, basePrice: int): (r: Num)
    ensures r.Finite? <==> basePrice != 0
  {
    Scale(Divide(price as real, basePrice as real), 100.0)
  }

  /** `analyzePriceAndRecommend` at the instant nowMs. Its possible-price range uses the raw
      percentages, not the repaired bounds the price map uses. */
  function AnalyzePriceAndRecommend(sha: Digest, userId: string, itemId: string, observedPrice: int,
                                    minPercent: int, maxPercent: int, nowMs: int): (a: PriceAnalysis)
    ensures a.currentPrice == observedPrice
    ensures a.basePrice == ReverseEngineerBasePrice(sha, userId, itemId, observedPrice, minPercent, maxPercent, CurrentHour(nowMs))
    ensures a.percentageFromBase == PercentOfBase(observedPrice, a.basePrice)
    ensures a.percentageFromBase.Finite? <==> a.basePrice != 0
    ensures a.minPossiblePrice == MinPrice(a.basePrice, Bounds(minPercent, maxPercent))
    ensures a.maxPossiblePrice == MaxPrice(a.basePrice, Bounds(minPercent, maxPercent))
    ensures Countdown(a.hoursUntilChange, a.minutesUntilChange) == TimeUntilChange(nowMs)
    ensures a.recommendation == GenerateRecommendation(a.percentageFromBase, a.minutesUntilChange)
    ensures a.recommendation.score == Score(a.percentageFromBase)
  {
    var basePrice := ReverseEngineerBasePrice(sha, userId, itemId, observedPrice, minPercent, maxPercent, CurrentHour(nowMs));
    var countdown := TimeUntilChange(nowMs);
    var percentageFromBase := PercentOfBase(observedPrice, basePrice);
    PriceAnalysis(
      observedPrice,
      basePrice,
      MinPrice(basePrice, Bounds(minPercent, maxPercent)),
      MaxPrice(basePrice, Bounds(minPercent, maxPercent)),
      percentageFromBase,
      countdown.hoursUntilChange,
      countdown.minutesUntilChange,
      GenerateRecommendation(percentageFromBase, countdown.minutesUntilChange))
  }

  /** With legal bounds the analysis's possible range is the price map's own clamp range around
      the recovered base; with malformed bounds it is not repaired the way the price map's is. */
  lemma PossibleRangeMatchesPriceMap(sha: Digest, userId: string, itemId: string, observedPrice: int,
                                     minPercent: int, maxPercent: int, nowMs: int)
    requires 1 <= minPercent && minPercent + 1 <= maxPercent
    ensures var a := AnalyzePriceAndRecommend(sha, userId, itemId, observedPrice, minPercent, maxPercent, nowMs);
      && a.minPossiblePrice == MinPrice(a.basePrice, SafeBounds(minPercent, maxPercent))
      && a.maxPossiblePrice == MaxPrice(a.basePrice, SafeBounds(minPercent, maxPercent))
  {
    LegalBoundsUnchanged(minPercent, maxPercent);
  }

  /** Dividing a positive price by a multiplier of at most 2 and rounding gives at least 1. */
  lemma SmallMultiplierKeepsBasePositive(observedPrice: int, m: real, r: int)
    requires 0.0 < m <= 2.0 && observedPrice >= 1
    requires observedPrice as real < (r as real + 0.5) * m
    ensures r >= 1
  {
    if r <= 0 {
      MulMonotone(m, r as real + 0.5, 0.5);
      assert false;
    }
  }

  /** Under the default 90/110 bounds every positive observed price reverses to a positive base,
      so the percentage is finite. */
  lemma DefaultBoundsGivePositiveBase(sha: Digest, userId: string, itemId: string, observedPrice: int, nowMs: int)
    requires observedPrice >= 1
    ensures var a := AnalyzePriceAndRecommend(sha, userId, itemId, observedPrice, DefaultMinPercent, DefaultMaxPercent, nowMs);
      a.basePrice >= 1 && a.percentageFromBase.Finite?
  {
    var h := CurrentHour(nowMs);
    SmallMultiplierKeepsBasePositive(observedPrice, Multiplier(sha, userId, itemId, DefaultMinPercent, DefaultMaxPercent, h),
                                     ReverseEngineerBasePrice(sha, userId, itemId, observedPrice, DefaultMinPercent, DefaultMaxPercent, h));
  }

  /** Analysing a price generated in the same hour recovers the base to within one, and
      equals the base when the hour's multiplier is at least 1. */
  lemma AnalysisOfFreshPrice(sha: Digest, userId: string, itemId: string, basePrice: int, nowMs: int)
    requires basePrice >= 1
    ensures var p := RandomizedPrice(sha, userId, itemId, basePrice, DefaultMinPercent, DefaultMaxPercent, nowMs);
      var a := AnalyzePriceAndRecommend(sha, userId, itemId, p, DefaultMinPercent, DefaultMaxPercent, nowMs);
      && basePrice - 1 <= a.basePrice <= basePrice + 1
      && (Multiplier(sha, userId, itemId, DefaultMinPercent, DefaultMaxPercent, CurrentHour(nowMs)) >= 1.0 ==>
            a.basePrice == basePrice)
  {
    var h := CurrentHour(nowMs);
    RoundTripWithinOne(sha, userId, itemId, basePrice, DefaultMinPercent, DefaultMaxPercent, h);
    if Multiplier(sha, userId, itemId, DefaultMinPercent, DefaultMaxPercent, h) >= 1.0 {
      RoundTripExact(sha, userId, itemId, basePrice, DefaultMinPercent, DefaultMaxPercent, h);
    }
  }
}
