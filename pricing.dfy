/** The deterministic hourly price map of the shop, its algebraic inverse and the
    shell conversion used for the travel stipend (src/lib/pricing-algorithms.ts). */
module Pricing {
  import opened Numeric
  import opened HourlyHash

  /** Default percentage bounds of every pricing call in the tracker. */
  const DefaultMinPercent: int := 90
  const DefaultMaxPercent: int := 110

  /** Percentage bounds after repair: always 1 <= safeMin < safeMax. */
  datatype Bounds = Bounds(safeMin: int, safeMax: int)

  /** `safeMinPercent`/`safeMaxPercent`: malformed bounds are repaired by raising them to the
      least legal values, never rejected. */
  function SafeBounds(minPercent: int, maxPercent: int): (b: Bounds)
    ensures 1 <= b.safeMin && b.safeMin + 1 <= b.safeMax
    ensures b.safeMin >= minPercent && b.safeMax >= maxPercent
    ensures b.safeMin == minPercent || b.safeMin == 1
    ensures b.safeMax == maxPercent || b.safeMax == b.safeMin + 1
  {
    var lo := Max(1, minPercent);
    Bounds(lo, Max(lo + 1, maxPercent))
  }

  /** Bounds that are already legal pass through unchanged. */
  lemma LegalBoundsUnchanged(minPercent: int, maxPercent: int)
    requires 1 <= minPercent && minPercent + 1 <= maxPercent
    ensures SafeBounds(minPercent, maxPercent) == Bounds(minPercent, maxPercent)
  {
  }

  /** `randomPercent`: the draw placed linearly between the repaired bounds. */
  function RandomPercent(draw: real, b: Bounds): (p: real)
    requires 0.0 <= draw <= 1.0
    requires b.safeMin < b.safeMax
    ensures b.safeMin as real <= p <= b.safeMax as real
  {
    var range := (b.safeMax - b.safeMin) as real;
    assert 0.0 <= draw * range <= range by {
      assert draw * range <= 1.0 * range;
    }
    b.safeMin as real + draw * range
  }

  /** `priceMultiplier` for one user, item and hour. */
  function Multiplier(sha: Digest, userId: string, itemId: string, minPercent: int, maxPercent: int, hour: int): (m: real)
    ensures SafeBounds(minPercent, maxPercent).safeMin as real / 100.0 <= m
    ensures m <= SafeBounds(minPercent, maxPercent).safeMax as real / 100.0
    ensures m >= 0.01
  {
    RandomPercent(HourlyRandom(sha, userId, itemId, hour), SafeBounds(minPercent, maxPercent)) / 100.0
  }

  /** `minPrice`: the floor of the lowest possible price. */
  function MinPrice(basePrice: int, b: Bounds): int
  {
    Floor(basePrice as real * b.safeMin as real / 100.0)
  }

  /** `maxPrice`: the ceiling of the highest possible price. */
  function MaxPrice(basePrice: int, b: Bounds): int
  {
    Ceil(basePrice as real * b.safeMax as real / 100.0)
  }

  /** Steps 52-55 of the forward map for a given multiplier: round with `Math.round`, clamp to
      [minPrice, maxPrice], floor at 1. */
  function PriceWithMultiplier(basePrice: int, b: Bounds, m: real): (p: int)
    requires b.safeMin <= b.safeMax
    ensures p >= 1
    ensures basePrice >= 0 ==> Max(1, MinPrice(basePrice, b)) <= p <= Max(1, MaxPrice(basePrice, b))
  {
    var raw := JsRound(basePrice as real * m);
    MinPriceAtMostMaxPrice(basePrice, b);
    Max(1, Max(MinPrice(basePrice, b), Min(MaxPrice(basePrice, b), raw)))
  }

  /** `calculateRandomizedPriceAtHour`: the hourly multiplier applied to the base price. */
  function PriceAtHour(sha: Digest, userId: string, itemId: string, basePrice: int,
                       minPercent: int, maxPercent: int, hour: int): (p: int)
    ensures p >= 1
    ensures basePrice >= 0 ==>
      var b := SafeBounds(minPercent, maxPercent);
      Max(1, MinPrice(basePrice, b)) <= p <= Max(1, MaxPrice(basePrice, b))
  {
    PriceWithMultiplier(basePrice, SafeBounds(minPercent, maxPercent),
                        Multiplier(sha, userId, itemId, minPercent, maxPercent, hour))
  }

  lemma MinPriceAtMostMaxPrice(basePrice: int, b: Bounds)
    requires b.safeMin <= b.safeMax
    ensures basePrice >= 0 ==> MinPrice(basePrice, b) <= MaxPrice(basePrice, b)
  {
    if basePrice >= 0 {
      assert basePrice as real * b.safeMin as real <= basePrice as real * b.safeMax as real;
    }
  }

  /** For a non-negative base the [minPrice, maxPrice] clamp never changes the rounded price,
      whatever multiplier the draw produced: only the floor at 1 can. */
  lemma ClampNeverBinds(basePrice: int, b: Bounds, m: real)
    requires basePrice >= 0 && b.safeMin <= b.safeMax
    requires b.safeMin as real / 100.0 <= m <= b.safeMax as real / 100.0
    ensures PriceWithMultiplier(basePrice, b, m) == Max(1, JsRound(basePrice as real * m))
  {
    RoundedWithinBand(basePrice, b.safeMin as real, b.safeMax as real, m);
  }

  /** The arithmetic behind ClampNeverBinds: Math.round(b * m) lies in
      [floor(b * lo / 100), ceil(b * hi / 100)] when m lies in [lo / 100, hi / 100]. */
  lemma {:induction false} RoundedWithinBand(basePrice: int, lo: real, hi: real, m: real)
    requires basePrice >= 0
    requires lo / 100.0 <= m <= hi / 100.0
    ensures Floor(basePrice as real * lo / 100.0) <= JsRound(basePrice as real * m)
    ensures JsRound(basePrice as real * m) <= Ceil(basePrice as real * hi / 100.0)
  {
    var b := basePrice as real;
    MulMonotone(b, lo / 100.0, m);
    MulMonotone(b, m, hi / 100.0);
    assert b * lo / 100.0 == b * (lo / 100.0);
    assert b * hi / 100.0 == b * (hi / 100.0);
    FloorMonotone(b * lo / 100.0, b * m + 0.5);
  }

  /** `calculateRandomizedPrice`: the same map at the hour containing the instant nowMs
      (the source repeats the body of `calculateRandomizedPriceAtHour` verbatim). */
  function RandomizedPrice(sha: Digest, userId: string, itemId: string, basePrice: int,
                           minPercent: int, maxPercent: int, nowMs: int): (p: int)
    ensures p >= 1
    ensures basePrice >= 0 ==>
      var b := SafeBounds(minPercent, maxPercent);
      Max(1, MinPrice(basePrice, b)) <= p <= Max(1, MaxPrice(basePrice, b))
  {
    PriceAtHour(sha, userId, itemId, basePrice, minPercent, maxPercent, CurrentHour(nowMs))
  }

  /** Two readings of the clock inside the same hour see the same price. */
  lemma RandomizedPriceConstantWithinHour(sha: Digest, userId: string, itemId: string, basePrice: int,
                                          minPercent: int, maxPercent: int, h: int, t1: int, t2: int)
    requires h * MsPerHour <= t1 < (h + 1) * MsPerHour
    requires h * MsPerHour <= t2 < (h + 1) * MsPerHour
    ensures RandomizedPrice(sha, userId, itemId, basePrice, minPercent, maxPercent, t1)
         == RandomizedPrice(sha, userId, itemId, basePrice, minPercent, maxPercent, t2)
         == PriceAtHour(sha, userId, itemId, basePrice, minPercent, maxPercent, h)
  {
    CurrentHourOfHour(h, t1);
    CurrentHourOfHour(h, t2);
  }

  /** `reverseEngineerBasePrice`: the observed price divided by the same multiplier the
      forward map used, rounded with `Math.round`. */
  function ReverseEngineerBasePrice(sha: Digest, userId: string, itemId: string, observedPrice: int,
                                    minPercent: int, maxPercent: int, hour: int): (r: int)
    ensures var m := Multiplier(sha, userId, itemId, minPercent, maxPercent, hour);
      (r as real - 0.5) * m <= observedPrice as real < (r as real + 0.5) * m
  {
    InverseWithMultiplier(observedPrice, Multiplier(sha, userId, itemId, minPercent, maxPercent, hour))
  }

  /** Lines 79-82 for a given multiplier: divide and round with `Math.round`. */
  function InverseWithMultiplier(observedPrice: int, m: real): (r: int)
    requires m > 0.0
    ensures (r as real - 0.5) * m <= observedPrice as real < (r as real + 0.5) * m
  {
    var x := observedPrice as real / m;
    var r := JsRound(x);
    Bracket(observedPrice as real, m, x, r as real);
    r
  }

  /** Multiplying back by a positive m keeps the rounding bracket around the quotient p / m. */
  lemma Bracket(p: real, m: real, x: real, r: real)
    requires m > 0.0 && x == p / m && r - 0.5 <= x < r + 0.5
    ensures (r - 0.5) * m <= p < (r + 0.5) * m
  {
    assert m * x == p;
    MulMonotone(m, r - 0.5, x);
    MulStrictMonotone(m, x, r + 0.5);
    assert m * (r - 0.5) == (r - 0.5) * m && m * (r + 0.5) == (r + 0.5) * m;
  }

  /** Rounding b * m and dividing back by m lands within one of b when m >= 1/2, and on b
      itself when m >= 1. */
  lemma {:induction false} InverseOfRounded(b: int, m: real)
    requires b >= 1 && m >= 0.5
    ensures -1 <= JsRound(JsRound(b as real * m) as real / m) - b <= 1
    ensures m >= 1.0 ==> JsRound(JsRound(b as real * m) as real / m) == b
  {
    var raw := JsRound(b as real * m);
    var x := raw as real / m;
    var d := x - b as real;
    DistanceAfterDivision(b as real, m, raw as real, d);
    if m >= 1.0 {
      if m == 1.0 {
        assert raw == b;
      } else {
        assert -0.5 < d < 0.5 by {
          DistanceBelowHalf(m, d);
        }
      }
      JsRoundUnique(x, b);
    }
  }

  /** With -1/2 < d * m <= 1/2 and m >= 1/2, the distance d lies in (-1, 1]. */
  lemma DistanceAfterDivision(b: real, m: real, raw: real, d: real)
    requires m >= 0.5
    requires b * m - 0.5 < raw <= b * m + 0.5
    requires d == raw / m - b
    ensures -1.0 < d <= 1.0
    ensures -0.5 < d * m <= 0.5
  {
    assert d * m == raw - b * m;
    if d > 1.0 {
      MulStrictMonotone(m, 1.0, d);
    }
    if d <= -1.0 {
      MulMonotone(m, d, -1.0);
    }
  }

  lemma DistanceBelowHalf(m: real, d: real)
    requires m > 1.0
    requires -0.5 < d * m <= 0.5
    ensures -0.5 < d < 0.5
  {
    if d >= 0.5 {
      MulStrictMonotone(d, 1.0, m);
    }
    if d <= -0.5 {
      MulStrictMonotone(-d, 1.0, m);
    }
  }

  /** Reversing a price at the hour it was generated recovers its base to within one
      whenever the repaired lower bound is at least 50% (so for the default 90/110 bounds). */
  lemma RoundTripWithinOne(sha: Digest, userId: string, itemId: string, basePrice: int,
                           minPercent: int, maxPercent: int, hour: int)
    requires basePrice >= 1
    requires SafeBounds(minPercent, maxPercent).safeMin >= 50
    ensures var p := PriceAtHour(sha, userId, itemId, basePrice, minPercent, maxPercent, hour);
      var r := ReverseEngineerBasePrice(sha, userId, itemId, p, minPercent, maxPercent, hour);
      basePrice - 1 <= r <= basePrice + 1
  {
    var m := Multiplier(sha, userId, itemId, minPercent, maxPercent, hour);
    var b := SafeBounds(minPercent, maxPercent);
    var p := PriceAtHour(sha, userId, itemId, basePrice, minPercent, maxPercent, hour);
    assert p == PriceWithMultiplier(basePrice, b, m);
    ClampNeverBinds(basePrice, b, m);
    MulMonotone(m, 1.0, basePrice as real);
    var j := JsRound(basePrice as real * m);
    assert j >= 1;
    assert p == j;
    assert ReverseEngineerBasePrice(sha, userId, itemId, p, minPercent, maxPercent, hour)
        == InverseWithMultiplier(p, m) == JsRound(j as real / m);
    InverseOfRounded(basePrice, m);
  }

  /** The lower bound of 50% in `RoundTripWithinOne` cannot be dropped in favour of "no clamp
      fires": with bounds 1/2, base 149 and multiplier 0.01 the price 1.49 rounds to 1, inside
      the clamp range [1, 3], yet 1 / 0.01 reverses to 100. */
  lemma SmallMultiplierLosesTheBase()
    ensures var b := SafeBounds(1, 2);
      && b.safeMin < 50
      && MinPrice(149, b) <= JsRound(149.0 * 0.01) <= MaxPrice(149, b)
      && PriceWithMultiplier(149, b, 0.01) == 1
      && InverseWithMultiplier(1, 0.01) == 100
  {
    var b := SafeBounds(1, 2);
    assert JsRound(149.0 * 0.01) == 1;
    assert JsRound(1.0 / 0.01) == 100;
  }

  /** When the draw put the multiplier at or above 1, the round trip is exact. */
  lemma RoundTripExact(sha: Digest, userId: string, itemId: string, basePrice: int,
                       minPercent: int, maxPercent: int, hour: int)
    requires basePrice >= 1
    requires Multiplier(sha, userId, itemId, minPercent, maxPercent, hour) >= 1.0
    ensures var p := PriceAtHour(sha, userId, itemId, basePrice, minPercent, maxPercent, hour);
      ReverseEngineerBasePrice(sha, userId, itemId, p, minPercent, maxPercent, hour) == basePrice
  {
    var m := Multiplier(sha, userId, itemId, minPercent, maxPercent, hour);
    var b := SafeBounds(minPercent, maxPercent);
    var p := PriceAtHour(sha, userId, itemId, basePrice, minPercent, maxPercent, hour);
    assert p == PriceWithMultiplier(basePrice, b, m);
    ClampNeverBinds(basePrice, b, m);
    MulMonotone(m, 1.0, basePrice as real);
    var j := JsRound(basePrice as real * m);
    assert j >= 1;
    assert p == j;
    assert ReverseEngineerBasePrice(sha, userId, itemId, p, minPercent, maxPercent, hour)
        == InverseWithMultiplier(p, m) == JsRound(j as real / m);
    InverseOfRounded(basePrice, m);
  }

  /** The double nearest to the golden ratio, which `(1 + Math.sqrt(5)) / 2` evaluates to. */
  const Phi: real := 1.6180339887498949025257388711906969547271728515625

  /** `calculateShellPrice`: shells for a dollar cost at an hourly rate; a rate that is not
      positive yields 0 instead of an error. */
  function ShellPrice(usdCost: real, dollarsPerHour: real): (s: int)
    ensures dollarsPerHour <= 0.0 ==> s == 0
    ensures dollarsPerHour > 0.0 && usdCost >= 0.0 ==> s >= 0
  {
    if dollarsPerHour <= 0.0 then 0
    else
      var hours := usdCost / dollarsPerHour;
      assert usdCost >= 0.0 ==> hours >= 0.0;
      JsRound(hours * Phi * 10.0)
  }

  /** The travel stipend ($10 at $10 an hour) costs 16 shells. */
  lemma TravelStipendIsSixteenShells()
    ensures ShellPrice(10.0, 10.0) == 16
  {
  }
}
