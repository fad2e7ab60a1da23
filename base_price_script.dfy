/** The standalone Python script calculate_base_price.py: its own copy of the hourly price map,
    which rounds with Python's `round` (half to even), and its base-price recovery, which
    checks the rounded quotient against the forward map and otherwise searches the eleven
    bases around it. The draw is the engine's `HourlyRandom`: the script hashes the same key
    string the same way. */
module BasePriceScript {
  import opened Numeric
  import opened HourlyHash
  import opened Pricing

  datatype Option<T> = None | Some(value: T)

  /** `math.floor(datetime.now().timestamp() / 3600)`: the hour containing the instant
      nowSeconds (seconds since the epoch). */
  function PyCurrentHour(nowSeconds: real): (h: int)
    ensures h as real * 3600.0 <= nowSeconds < (h + 1) as real * 3600.0
  {
    Floor(nowSeconds / 3600.0)
  }

  /** The script and the engine agree on the hour of every instant. */
  lemma ClocksAgreeOnHour(nowMs: int)
    ensures PyCurrentHour(nowMs as real / 1000.0) == CurrentHour(nowMs)
  {
    var h := CurrentHour(nowMs);
    assert h as real * 3600.0 <= nowMs as real / 1000.0 < (h + 1) as real * 3600.0;
  }

  /** Lines 55-64 for a given multiplier: round with Python's `round`, clamp to
      [min_price, max_price], floor at 1. */
  function PyPriceWithMultiplier(basePrice: int, b: Bounds, m: real): (p: int)
    requires b.safeMin <= b.safeMax
    ensures p >= 1
    ensures basePrice >= 0 ==> Max(1, MinPrice(basePrice, b)) <= p <= Max(1, MaxPrice(basePrice, b))
  {
    MinPriceAtMostMaxPrice(basePrice, b);
    Max(1, Max(MinPrice(basePrice, b), Min(MaxPrice(basePrice, b), PyRound(basePrice as real * m))))
  }

  /** `calculate_randomized_price` at the instant nowSeconds. */
  function CalculateRandomizedPrice(sha: Digest, userId: string, itemId: string, basePrice: int,
                                    minPercent: int, maxPercent: int, nowSeconds: real): int
  {
    PyPriceWithMultiplier(basePrice, SafeBounds(minPercent, maxPercent),
                          Multiplier(sha, userId, itemId, minPercent, maxPercent, PyCurrentHour(nowSeconds)))
  }

  /** The script's forward map agrees with the engine's wherever base * multiplier is not
      exactly half-way between two integers. */
  lemma ForwardMapsAgreeOffTies(sha: Digest, userId: string, itemId: string, basePrice: int,
                                minPercent: int, maxPercent: int, nowMs: int)
    requires !IsHalfInteger(basePrice as real * Multiplier(sha, userId, itemId, minPercent, maxPercent, CurrentHour(nowMs)))
    ensures CalculateRandomizedPrice(sha, userId, itemId, basePrice, minPercent, maxPercent, nowMs as real / 1000.0)
         == RandomizedPrice(sha, userId, itemId, basePrice, minPercent, maxPercent, nowMs)
  {
    ClocksAgreeOnHour(nowMs);
    RoundingsAgreeOffTies(basePrice as real * Multiplier(sha, userId, itemId, minPercent, maxPercent, CurrentHour(nowMs)));
  }

  /** On a tie they differ: with a digest whose words are all 0 the multiplier is 0.9, a base
      of 5 gives 4.5, and the engine charges 5 where the script predicts 4. */
  lemma ForwardMapsDivergeOnTies()
    ensures var sha: Digest := _ => 0;
      && CalculateRandomizedPrice(sha, "u", "i", 5, DefaultMinPercent, DefaultMaxPercent, 0.0) == 4
      && RandomizedPrice(sha, "u", "i", 5, DefaultMinPercent, DefaultMaxPercent, 0) == 5
  {
    var sha: Digest := _ => 0;
    var b := SafeBounds(DefaultMinPercent, DefaultMaxPercent);
    assert HourlyRandom(sha, "u", "i", 0) == 0.0;
    assert Multiplier(sha, "u", "i", DefaultMinPercent, DefaultMaxPercent, 0) == 0.9;
    assert MinPrice(5, b) == 4 && MaxPrice(5, b) == 6;
    assert PyRound(4.5) == 4;
    assert JsRound(4.5) == 5;
  }

  /** The script's forward map at one instant, as a function of the base. */
  function ForwardAt(sha: Digest, userId: string, itemId: string, minPercent: int, maxPercent: int,
                     nowSeconds: real): int -> int
  {
    base => CalculateRandomizedPrice(sha, userId, itemId, base, minPercent, maxPercent, nowSeconds)
  }

  /** Line 89: the observed price divided by the hour's multiplier, rounded with `round`. */
  function Candidate(sha: Digest, userId: string, itemId: string, currentPrice: int,
                     minPercent: int, maxPercent: int, nowSeconds: real): int
  {
    PyRound(currentPrice as real / Multiplier(sha, userId, itemId, minPercent, maxPercent, PyCurrentHour(nowSeconds)))
  }

  /** The search accepts candidate + offset: it is positive and the forward map prices it at
      currentPrice. */
  predicate AcceptsAt(forward: int -> int, currentPrice: int, candidate: int, offset: int)
  {
    candidate + offset > 0 && forward(candidate + offset) == currentPrice
  }

  /** Lines 98-103 from one offset on: the first candidate + offset, offset up to 5, that the
      search accepts. */
  function SearchFrom(forward: int -> int, currentPrice: int, candidate: int, offset: int): Option<int>
    decreases 6 - offset
  {
    if offset > 5 then None
    else if AcceptsAt(forward, currentPrice, candidate, offset) then Some(candidate + offset)
    else SearchFrom(forward, currentPrice, candidate, offset + 1)
  }

  /** What the search from an offset finds: the first accepted base at that offset or later,
      and nothing exactly when no offset up to 5 is accepted. */
  lemma {:induction false} SearchFromProperties(forward: int -> int, currentPrice: int, candidate: int, offset: int)
    ensures var s := SearchFrom(forward, currentPrice, candidate, offset);
      && (s.None? <==> forall o :: offset <= o <= 5 ==> !AcceptsAt(forward, currentPrice, candidate, o))
      && (s.Some? ==>
            && offset <= s.value - candidate <= 5
            && s.value > 0 && forward(s.value) == currentPrice
            && forall o :: offset <= o < s.value - candidate ==> !AcceptsAt(forward, currentPrice, candidate, o))
    decreases 6 - offset
  {
    if offset <= 5 && !AcceptsAt(forward, currentPrice, candidate, offset) {
      SearchFromProperties(forward, currentPrice, candidate, offset + 1);
    }
  }

  /** Lines 91-107 for a given forward map and candidate: the candidate when it reproduces the
      price, else the first accepted base from candidate - 5 up, else the candidate anyway. */
  function ReverseFrom(forward: int -> int, currentPrice: int, candidate: int): int
  {
    if forward(candidate) == currentPrice then candidate
    else match SearchFrom(forward, currentPrice, candidate, -5)
      case Some(base) => base
      case None => candidate
  }

  /** The result is within five of the candidate. It reproduces the price unless it is the
      candidate itself; any other result is positive and is the first accepted base in
      ascending order. Whenever some base within five of the candidate is accepted, the result
      reproduces the price. */
  lemma ReverseFromProperties(forward: int -> int, currentPrice: int, candidate: int)
    ensures var r := ReverseFrom(forward, currentPrice, candidate);
      && candidate - 5 <= r <= candidate + 5
      && (forward(r) == currentPrice || r == candidate)
      && (r != candidate ==>
            && r > 0 && forward(candidate) != currentPrice
            && forall o :: -5 <= o < r - candidate ==> !AcceptsAt(forward, currentPrice, candidate, o))
      && ((exists o :: -5 <= o <= 5 && AcceptsAt(forward, currentPrice, candidate, o)) ==> forward(r) == currentPrice)
  {
    SearchFromProperties(forward, currentPrice, candidate, -5);
  }

  /** `reverse_engineer_base_price` at the instant nowSeconds. */
  function PyReverse(sha: Digest, userId: string, itemId: string, currentPrice: int,
                     minPercent: int, maxPercent: int, nowSeconds: real): int
  {
    ReverseFrom(ForwardAt(sha, userId, itemId, minPercent, maxPercent, nowSeconds), currentPrice,
                Candidate(sha, userId, itemId, currentPrice, minPercent, maxPercent, nowSeconds))
  }

  /** The verify-then-search loop of `reverse_engineer_base_price`, with its early returns. */
  method SearchNearCandidate(forward: int -> int, currentPrice: int, candidate: int) returns (r: int)
    ensures r == ReverseFrom(forward, currentPrice, candidate)
  {
    var verificationPrice := forward(candidate);
    if verificationPrice == currentPrice {
      return candidate;
    }
    var offset := -5;
    while offset < 6
      invariant -5 <= offset <= 6
      invariant SearchFrom(forward, currentPrice, candidate, -5) == SearchFrom(forward, currentPrice, candidate, offset)
    {
      var testBase := candidate + offset;
      if testBase > 0 {
        var testPrice := forward(testBase);
        if testPrice == currentPrice {
          return testBase;
        }
      }
      offset := offset + 1;
    }
    return candidate;
  }

  /** `reverse_engineer_base_price`: the candidate from the hour's multiplier, then the search. */
  method ReverseEngineerBasePrice(sha: Digest, userId: string, itemId: string, currentPrice: int,
                                  minPercent: int, maxPercent: int, nowSeconds: real) returns (r: int)
    ensures r == PyReverse(sha, userId, itemId, currentPrice, minPercent, maxPercent, nowSeconds)
  {
    var priceMultiplier := Multiplier(sha, userId, itemId, minPercent, maxPercent, PyCurrentHour(nowSeconds));
    var baseCandidate := PyRound(currentPrice as real / priceMultiplier);
    assert baseCandidate == Candidate(sha, userId, itemId, currentPrice, minPercent, maxPercent, nowSeconds);
    var forward := ForwardAt(sha, userId, itemId, minPercent, maxPercent, nowSeconds);
    assert PyReverse(sha, userId, itemId, currentPrice, minPercent, maxPercent, nowSeconds)
        == ReverseFrom(forward, currentPrice, baseCandidate);
    r := SearchNearCandidate(forward, currentPrice, baseCandidate);
  }

  /** The arithmetic behind the script's clamp: Python's round(b * m) lies in
      [floor(b * lo / 100), ceil(b * hi / 100)] when m lies in [lo / 100, hi / 100]. */
  lemma PyRoundedWithinBand(basePrice: int, lo: real, hi: real, m: real)
    requires basePrice >= 0
    requires lo / 100.0 <= m <= hi / 100.0
    ensures Floor(basePrice as real * lo / 100.0) <= PyRound(basePrice as real * m)
    ensures PyRound(basePrice as real * m) <= Ceil(basePrice as real * hi / 100.0)
  {
    ScaleBetween(basePrice as real, lo, m, hi);
    PyRoundBetween(basePrice as real * lo / 100.0, basePrice as real * m, basePrice as real * hi / 100.0);
  }

  /** Python's rounding of a value between lo and hi lies between floor(lo) and ceil(hi). */
  lemma PyRoundBetween(lo: real, x: real, hi: real)
    requires lo <= x <= hi
    ensures Floor(lo) <= PyRound(x) <= Ceil(hi)
  {
  }

  /** For a non-negative base, Python's rounding of base * m already lies in
      [min_price, max_price] when m lies in [safeMin / 100, safeMax / 100]. */
  lemma PyRoundInBand(basePrice: int, b: Bounds, m: real)
    requires basePrice >= 0
    requires b.safeMin as real / 100.0 <= m <= b.safeMax as real / 100.0
    ensures MinPrice(basePrice, b) <= PyRound(basePrice as real * m) <= MaxPrice(basePrice, b)
  {
    PyRoundedWithinBand(basePrice, b.safeMin as real, b.safeMax as real, m);
  }

  /** Python's rounding of b * m, for a base b >= 1 and a multiplier m in [lo / 100, hi / 100]
      with lo >= 50, is already inside the clamp range, so the price is within one half of
      b * m (a product of exactly 1/2 rounds to 0 and is floored to 1). */
  lemma PyPriceNearProduct(basePrice: int, b: Bounds, m: real)
    requires basePrice >= 1 && 50 <= b.safeMin <= b.safeMax
    requires b.safeMin as real / 100.0 <= m <= b.safeMax as real / 100.0
    ensures basePrice as real * m - 0.5 <= PyPriceWithMultiplier(basePrice, b, m) as real <= basePrice as real * m + 0.5
  {
    var x := basePrice as real * m;
    PyRoundInBand(basePrice, b, m);
    MulMonotone(m, 1.0, basePrice as real);
    PyPriceIsClampedRound(basePrice, b, m);
    ClampKeepsRounded(x, MinPrice(basePrice, b), MaxPrice(basePrice, b), PyRound(x));
  }

  /** The script's price is Python's rounding of b * m, clamped and floored at 1. */
  lemma PyPriceIsClampedRound(basePrice: int, b: Bounds, m: real)
    requires b.safeMin <= b.safeMax
    ensures PyPriceWithMultiplier(basePrice, b, m)
         == Max(1, Max(MinPrice(basePrice, b), Min(MaxPrice(basePrice, b), PyRound(basePrice as real * m))))
  {
  }

  /** A rounding r of x >= 1/2 that already lies in [lo, hi] survives the clamp to [lo, hi]
      and the floor at 1 within one half of x. */
  lemma ClampKeepsRounded(x: real, lo: int, hi: int, r: int)
    requires x >= 0.5 && x - 0.5 <= r as real <= x + 0.5
    requires lo <= r <= hi
    ensures x - 0.5 <= Max(1, Max(lo, Min(hi, r))) as real <= x + 0.5
  {
  }

  /** A price within one half of b * m, divided by m >= 1/2, lies within one of b. */
  lemma QuotientNearBase(b: real, m: real, p: real)
    requires m >= 0.5
    requires b * m - 0.5 <= p <= b * m + 0.5
    ensures b - 1.0 <= p / m <= b + 1.0
  {
    var d := p / m - b;
    assert d * m == p - b * m;
    if d > 1.0 {
      MulStrictMonotone(m, 1.0, d);
    }
    if d < -1.0 {
      MulStrictMonotone(m, d, -1.0);
    }
  }

  /** Python's rounding of a price within one half of b * m, divided by m >= 1/2, is within
      one of b. */
  lemma RoundedQuotientNearBase(basePrice: int, m: real, p: int)
    requires m >= 0.5
    requires basePrice as real * m - 0.5 <= p as real <= basePrice as real * m + 0.5
    ensures -1 <= PyRound(p as real / m) - basePrice <= 1
  {
    QuotientNearBase(basePrice as real, m, p as real);
  }

  /** The candidate computed from a price the script produced is within one of the base. */
  lemma CandidateNearBase(basePrice: int, b: Bounds, m: real)
    requires basePrice >= 1 && 50 <= b.safeMin <= b.safeMax
    requires b.safeMin as real / 100.0 <= m <= b.safeMax as real / 100.0
    ensures -1 <= PyRound(PyPriceWithMultiplier(basePrice, b, m) as real / m) - basePrice <= 1
  {
    PyPriceNearProduct(basePrice, b, m);
    RoundedQuotientNearBase(basePrice, m, PyPriceWithMultiplier(basePrice, b, m));
  }

  /** When a positive base within five of the candidate reproduces the price, so does the
      search's result, which lies within ten of that base. */
  lemma SearchFindsReproducingBase(forward: int -> int, currentPrice: int, candidate: int, base: int)
    requires base > 0 && forward(base) == currentPrice
    requires -5 <= base - candidate <= 5
    ensures var r := ReverseFrom(forward, currentPrice, candidate);
      forward(r) == currentPrice && base - 10 <= r <= base + 10
  {
    assert AcceptsAt(forward, currentPrice, candidate, base - candidate);
    ReverseFromProperties(forward, currentPrice, candidate);
  }

  /** Reversing a price the script's own forward map produced, at the same instant and with a
      repaired lower bound of at least 50% (as under the default 90/110), always finds a base
      that reproduces the price, and it is within six of the true base: the candidate is within
      one of it, so the true base is among the bases the search tries. */
  lemma PyRoundTripReproduces(sha: Digest, userId: string, itemId: string, basePrice: int,
                              minPercent: int, maxPercent: int, nowSeconds: real)
    requires basePrice >= 1
    requires SafeBounds(minPercent, maxPercent).safeMin >= 50
    ensures var p := CalculateRandomizedPrice(sha, userId, itemId, basePrice, minPercent, maxPercent, nowSeconds);
      var r := PyReverse(sha, userId, itemId, p, minPercent, maxPercent, nowSeconds);
      && CalculateRandomizedPrice(sha, userId, itemId, r, minPercent, maxPercent, nowSeconds) == p
      && basePrice - 6 <= r <= basePrice + 6
  {
    var forward := ForwardAt(sha, userId, itemId, minPercent, maxPercent, nowSeconds);
    var m := Multiplier(sha, userId, itemId, minPercent, maxPercent, PyCurrentHour(nowSeconds));
    var p := forward(basePrice);
    var c := Candidate(sha, userId, itemId, p, minPercent, maxPercent, nowSeconds);
    assert p == PyPriceWithMultiplier(basePrice, SafeBounds(minPercent, maxPercent), m);
    assert c == PyRound(p as real / m);
    CandidateNearBase(basePrice, SafeBounds(minPercent, maxPercent), m);
    SearchFindsReproducingBase(forward, p, c, basePrice);
    ReverseFromProperties(forward, p, c);
  }

  /** `calculate_shell_price`: a rate that is not positive yields 0; otherwise the script rounds
      with Python's `round` where the engine uses `Math.round`, which gives the same 16 shells for
      the travel stipend. */
  function PyShellPrice(usdCost: real, dollarsPerHour: real): (s: int)
    ensures dollarsPerHour <= 0.0 ==> s == 0
    ensures dollarsPerHour > 0.0 && !IsHalfInteger(usdCost / dollarsPerHour * Phi * 10.0) ==>
      s == ShellPrice(usdCost, dollarsPerHour)
  {
    if dollarsPerHour <= 0.0 then 0
    else
      var hours := usdCost / dollarsPerHour;
      RoundingsAgreeOffTies(hours * Phi * 10.0);
      PyRound(hours * Phi * 10.0)
  }

  /** The script prices the travel stipend at 16 shells too. */
  lemma PyTravelStipendIsSixteenShells()
    ensures PyShellPrice(10.0, 10.0) == 16
  {
    assert PyRound(Phi * 10.0) == 16;
  }
}
