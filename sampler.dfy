/** `findGlobalCheapestPrice` (src/lib/pricing-algorithms.ts): the price map sampled for a
    range of synthetic user ids and hours, the first strictly lowest sample, and the sorted
    list of every sampled price. */
module Sampler {
  import opened Numeric
  import opened Text
  import opened HourlyHash
  import opened Pricing
  import opened Scan
  import opened Recommendation
  import opened Sorting
  import Sequences

  /** `user-${k.toString().padStart(10, '0')}`: the k-th synthetic user id. */
  function FakeUserId(k: nat): (u: string)
    ensures |u| >= 15
  {
    "user-" + PadStart(NatString(k), 10, '0')
  }

  /** The price of one item for every user at every hour, for one base and pair of bounds. */
  function MarketPrices(sha: Digest, itemId: string, basePrice: int, minPercent: int, maxPercent: int): (string, int) -> int
  {
    (userId, hour) => PriceAtHour(sha, userId, itemId, basePrice, minPercent, maxPercent, hour)
  }

  /** The inner loop's samples for user u: hour offsets 0 to hours - 1 from currentHour. */
  function SampleRow(prices: (string, int) -> int, ids: nat -> string, currentHour: int, u: nat, hours: int): seq<Quote<string>>
  {
    seq(Max(0, hours), RowStep(prices, ids, currentHour, u))
  }

  /** The sample for user u at hour offset j. */
  function RowStep(prices: (string, int) -> int, ids: nat -> string, currentHour: int, u: nat): int -> Quote<string>
  {
    j => Quote(prices(ids(u), currentHour + j), currentHour + j, ids(u))
  }

  /** The j-th sample of user u's row is the table's price for that user j hours on. */
  lemma SampleRowAt(prices: (string, int) -> int, ids: nat -> string, currentHour: int, u: nat, hours: int, j: int)
    requires 0 <= j < hours
    ensures |SampleRow(prices, ids, currentHour, u, hours)| == hours
    ensures SampleRow(prices, ids, currentHour, u, hours)[j].price == prices(ids(u), currentHour + j)
    ensures SampleRow(prices, ids, currentHour, u, hours)[j].hour == currentHour + j
    ensures SampleRow(prices, ids, currentHour, u, hours)[j].tag == ids(u)
  {
  }

  /** Every sample of the first `users` synthetic users, in the loops' order (user, then hour). */
  function Samples(prices: (string, int) -> int, ids: nat -> string, currentHour: int, users: int, hours: int): seq<Quote<string>>
    decreases users
  {
    if users <= 0 then [] else Samples(prices, ids, currentHour, users - 1, hours) + SampleRow(prices, ids, currentHour, users - 1, hours)
  }

  function PricesOf(qs: seq<Quote<string>>): (ps: seq<int>)
    ensures |ps| == |qs| && forall i :: 0 <= i < |qs| ==> ps[i] == qs[i].price
  {
    seq(|qs|, i requires 0 <= i < |qs| => qs[i].price)
  }

  /** The result of `findGlobalCheapestPrice`. */
  datatype GlobalCheapest = GlobalCheapest(
    cheapestPrice: int, cheapestUserId: string, cheapestHour: int,
    cheapestPercentage: Num, priceDistribution: seq<int>)

  /** The candidate the scan starts from: the base price, with no user and hour 0. */
  function Start(basePrice: int): Quote<string>
  {
    Quote(basePrice, 0, "")
  }

  /** `cheapestPercentage` for the current candidate: 100 until a sample replaces the start. */
  function PercentageOf(best: Quote<string>, basePrice: int): Num
  {
    if best == Start(basePrice) then Finite(100.0) else PercentOfBase(best.price, basePrice)
  }

  /** The scan's state after the samples in scanned: every price in order, the first
      strictly cheapest candidate, and its percentage of the base. */
  ghost predicate ScanState(basePrice: int, scanned: seq<Quote<string>>, best: Quote<string>,
                            percentage: Num, distribution: seq<int>)
  {
    && distribution == PricesOf(scanned)
    && best == Cheapest(Start(basePrice), scanned)
    && percentage == PercentageOf(best, basePrice)
  }

  /** What the sampler returns for a given price table. */
  function GlobalCheapestFrom(prices: (string, int) -> int, ids: nat -> string, basePrice: int, currentHour: int,
                              users: int, hours: int): GlobalCheapest
  {
    var samples := Samples(prices, ids, currentHour, users, hours);
    var best := Cheapest(Start(basePrice), samples);
    GlobalCheapest(best.price, best.tag, best.hour, PercentageOf(best, basePrice),
                   SortAscending(PricesOf(samples)))
  }

  /** What `findGlobalCheapestPrice` returns at the instant nowMs. */
  function GlobalCheapestPrice(sha: Digest, itemId: string, basePrice: int, minPercent: int, maxPercent: int,
                               sampleUsers: int, hoursToCheck: int, nowMs: int): GlobalCheapest
  {
    GlobalCheapestFrom(MarketPrices(sha, itemId, basePrice, minPercent, maxPercent), FakeUserId, basePrice,
                       CurrentHour(nowMs), sampleUsers, hoursToCheck)
  }

  lemma PricesOfAppend(qs: seq<Quote<string>>, q: Quote<string>)
    ensures PricesOf(qs + [q]) == PricesOf(qs) + [q.price]
  {
  }

  /** Scanning user u's sample at hour offset o after the samples `done` and the user's
      earlier offsets: its price is appended to the distribution, and it becomes the cheapest
      when strictly below the cheapest so far. */
  lemma ScanOneMoreSample(prices: (string, int) -> int, ids: nat -> string, basePrice: int, currentHour: int, u: nat,
                          done: seq<Quote<string>>, o: int, best: Quote<string>, percentage: Num, distribution: seq<int>)
    requires o >= 0
    requires ScanState(basePrice, done + SampleRow(prices, ids, currentHour, u, o), best, percentage, distribution)
    ensures ScanState(basePrice, done + SampleRow(prices, ids, currentHour, u, o + 1),
                      if prices(ids(u), currentHour + o) < best.price
                      then Quote(prices(ids(u), currentHour + o), currentHour + o, ids(u)) else best,
                      if prices(ids(u), currentHour + o) < best.price
                      then PercentOfBase(prices(ids(u), currentHour + o), basePrice) else percentage,
                      distribution + [prices(ids(u), currentHour + o)])
  {
    var f := RowStep(prices, ids, currentHour, u);
    var q := Quote(prices(ids(u), currentHour + o), currentHour + o, ids(u));
    assert SampleRow(prices, ids, currentHour, u, o + 1) == seq(o + 1, f);
    assert SampleRow(prices, ids, currentHour, u, o) == seq(o, f);
    Sequences.Extend(o + 1, f);
    assert f(o) == q;
    Sequences.AppendAfter(done, seq(o, f), q);
    PricesOfAppend(done + seq(o, f), q);
    CheapestAppend(Start(basePrice), done + seq(o, f), q);
    if q.price < best.price {
      assert q != Start(basePrice);
    }
  }

  /** The inner loop of `findGlobalCheapestPrice` for synthetic user u: every hour offset in
      turn, appending its price to the distribution and taking it as the cheapest sample when
      strictly below the cheapest so far. The state it starts from is the scan of `done`. */
  method ScanUserHours(prices: (string, int) -> int, ids: nat -> string, basePrice: int, currentHour: int, u: nat, hoursToCheck: int,
                       ghost done: seq<Quote<string>>, cheapestPrice0: int, cheapestUserId0: string, cheapestHour0: int,
                       cheapestPercentage0: Num, priceDistribution0: seq<int>)
    returns (cheapestPrice: int, cheapestUserId: string, cheapestHour: int,
             cheapestPercentage: Num, priceDistribution: seq<int>)
    requires ScanState(basePrice, done, Quote(cheapestPrice0, cheapestHour0, cheapestUserId0),
                       cheapestPercentage0, priceDistribution0)
    ensures ScanState(basePrice, done + SampleRow(prices, ids, currentHour, u, hoursToCheck),
                      Quote(cheapestPrice, cheapestHour, cheapestUserId), cheapestPercentage, priceDistribution)
  {
    cheapestPrice, cheapestUserId, cheapestHour := cheapestPrice0, cheapestUserId0, cheapestHour0;
    cheapestPercentage, priceDistribution := cheapestPercentage0, priceDistribution0;
    var fakeUserId := ids(u);
    assert done + SampleRow(prices, ids, currentHour, u, 0) == done;
    var hourOffset := 0;
    while hourOffset < hoursToCheck
      invariant 0 <= hourOffset <= Max(0, hoursToCheck)
      invariant ScanState(basePrice, done + SampleRow(prices, ids, currentHour, u, hourOffset),
                          Quote(cheapestPrice, cheapestHour, cheapestUserId), cheapestPercentage, priceDistribution)
    {
      var testHour := currentHour + hourOffset;
      var price := prices(fakeUserId, testHour);
      ScanOneMoreSample(prices, ids, basePrice, currentHour, u, done, hourOffset,
                        Quote(cheapestPrice, cheapestHour, cheapestUserId), cheapestPercentage, priceDistribution);
      priceDistribution := priceDistribution + [price];
      if price < cheapestPrice {
        cheapestPrice := price;
        cheapestUserId := fakeUserId;
        cheapestHour := testHour;
        cheapestPercentage := PercentOfBase(price, basePrice);
      }
      hourOffset := hourOffset + 1;
    }
    assert SampleRow(prices, ids, currentHour, u, hourOffset) == SampleRow(prices, ids, currentHour, u, hoursToCheck) by {
      assert Max(0, hourOffset) == Max(0, hoursToCheck);
    }
  }

  /** `findGlobalCheapestPrice` for a given price table and id generator: the loop over
      synthetic users around the loop over hours, then the sort. */
  method ScanMarket(prices: (string, int) -> int, ids: nat -> string, basePrice: int, currentHour: int,
                    sampleUsers: int, hoursToCheck: int)
    returns (result: GlobalCheapest)
    ensures result == GlobalCheapestFrom(prices, ids, basePrice, currentHour, sampleUsers, hoursToCheck)
  {
    var cheapestPrice := basePrice;
    var cheapestUserId := "";
    var cheapestHour := 0;
    var cheapestPercentage := Finite(100.0);
    var priceDistribution: seq<int> := [];
    var userSample := 0;
    while userSample < sampleUsers
      invariant 0 <= userSample <= Max(0, sampleUsers)
      invariant ScanState(basePrice, Samples(prices, ids, currentHour, userSample, hoursToCheck),
                          Quote(cheapestPrice, cheapestHour, cheapestUserId), cheapestPercentage, priceDistribution)
    {
      cheapestPrice, cheapestUserId, cheapestHour, cheapestPercentage, priceDistribution :=
        ScanUserHours(prices, ids, basePrice, currentHour, userSample, hoursToCheck,
                      Samples(prices, ids, currentHour, userSample, hoursToCheck),
                      cheapestPrice, cheapestUserId, cheapestHour, cheapestPercentage, priceDistribution);
      SamplesStep(prices, ids, currentHour, userSample, hoursToCheck);
      userSample := userSample + 1;
    }
    assert Samples(prices, ids, currentHour, userSample, hoursToCheck) == Samples(prices, ids, currentHour, sampleUsers, hoursToCheck);
    FinishScan(prices, ids, basePrice, currentHour, sampleUsers, hoursToCheck,
               Quote(cheapestPrice, cheapestHour, cheapestUserId), cheapestPercentage, priceDistribution);
    result := GlobalCheapest(cheapestPrice, cheapestUserId, cheapestHour, cheapestPercentage,
                             SortAscending(priceDistribution));
  }

  /** The samples of one more user are that user's row after everyone before. */
  lemma SamplesStep(prices: (string, int) -> int, ids: nat -> string, currentHour: int, u: nat, hours: int)
    ensures Samples(prices, ids, currentHour, u + 1, hours)
         == Samples(prices, ids, currentHour, u, hours) + SampleRow(prices, ids, currentHour, u, hours)
  {
  }

  /** The scan's final state, once sorted, is the sampler's result. */
  lemma FinishScan(prices: (string, int) -> int, ids: nat -> string, basePrice: int, currentHour: int,
                   users: int, hours: int, best: Quote<string>, percentage: Num, distribution: seq<int>)
    requires ScanState(basePrice, Samples(prices, ids, currentHour, users, hours), best, percentage, distribution)
    ensures GlobalCheapest(best.price, best.tag, best.hour, percentage, SortAscending(distribution))
         == GlobalCheapestFrom(prices, ids, basePrice, currentHour, users, hours)
  {
  }

  /** `findGlobalCheapestPrice` at the instant nowMs, with the shop's price map and user ids. */
  method FindGlobalCheapestPrice(sha: Digest, itemId: string, basePrice: int, minPercent: int, maxPercent: int,
                                 sampleUsers: int, hoursToCheck: int, nowMs: int)
    returns (result: GlobalCheapest)
    ensures result == GlobalCheapestPrice(sha, itemId, basePrice, minPercent, maxPercent, sampleUsers, hoursToCheck, nowMs)
  {
    var prices := MarketPrices(sha, itemId, basePrice, minPercent, maxPercent);
    result := ScanMarket(prices, FakeUserId, basePrice, CurrentHour(nowMs), sampleUsers, hoursToCheck);
  }

  /** There are users * hours samples (none when either count is not positive). */
  lemma {:induction false} SamplesLength(prices: (string, int) -> int, ids: nat -> string, currentHour: int, users: int, hours: int)
    ensures |Samples(prices, ids, currentHour, users, hours)| == Max(0, users) * Max(0, hours)
    decreases users
  {
    if users > 0 {
      SamplesLength(prices, ids, currentHour, users - 1, hours);
      assert Max(0, users) * Max(0, hours) == (users - 1) * Max(0, hours) + Max(0, hours);
    }
  }

  /** Every sample is the price table's entry for one of the first `users` synthetic users at
      one of the `hours` hours from currentHour. */
  lemma {:induction false} SamplesAreTableEntries(prices: (string, int) -> int, ids: nat -> string, currentHour: int, users: int, hours: int)
    ensures forall i :: 0 <= i < |Samples(prices, ids, currentHour, users, hours)| ==>
      IsTableEntry(prices, ids, currentHour, users, hours, Samples(prices, ids, currentHour, users, hours)[i])
    decreases users
  {
    if users > 0 {
      SamplesAreTableEntries(prices, ids, currentHour, users - 1, hours);
      var prefix := Samples(prices, ids, currentHour, users - 1, hours);
      var row := SampleRow(prices, ids, currentHour, users - 1, hours);
      var s := Samples(prices, ids, currentHour, users, hours);
      assert forall i :: 0 <= i < |prefix| ==> IsTableEntry(prices, ids, currentHour, users - 1, hours, prefix[i]);
      assert s == prefix + row;
      forall i | 0 <= i < |s|
        ensures IsTableEntry(prices, ids, currentHour, users, hours, s[i])
      {
        if i < |prefix| {
          assert s[i] == prefix[i];
          assert IsTableEntry(prices, ids, currentHour, users - 1, hours, prefix[i]);
        } else {
          var j := i - |prefix|;
          assert s[i] == row[j];
          SampleRowAt(prices, ids, currentHour, users - 1, hours, j);
        }
      }
    }
  }

  /** q is the table's price for one of the first `users` synthetic users at one of the
      `hours` hours from currentHour. */
  ghost predicate IsTableEntry(prices: (string, int) -> int, ids: nat -> string, currentHour: int, users: int, hours: int, q: Quote<string>)
  {
    && q.price == prices(q.tag, q.hour)
    && currentHour <= q.hour < currentHour + hours
    && exists u :: 0 <= u < users && q.tag == ids(u)
  }

  /** The sampler's promises for any price table: the distribution lists every sample exactly
      once, sorted ascending; the cheapest price is the minimum of the base price and every
      sample; when no sample is below the base, the defaults ("" user, hour 0, 100%) survive;
      otherwise the winner is the first sample, in scan order, strictly below all before it. */
  lemma GlobalCheapestFromProperties(prices: (string, int) -> int, ids: nat -> string, basePrice: int, currentHour: int,
                                     users: int, hours: int)
    ensures var r := GlobalCheapestFrom(prices, ids, basePrice, currentHour, users, hours);
      var samples := Samples(prices, ids, currentHour, users, hours);
      && |r.priceDistribution| == Max(0, users) * Max(0, hours)
      && Sorted(r.priceDistribution)
      && multiset(r.priceDistribution) == multiset(PricesOf(samples))
      && r.cheapestPrice <= basePrice
      && (forall i :: 0 <= i < |r.priceDistribution| ==> r.cheapestPrice <= r.priceDistribution[i])
      && ((forall i :: 0 <= i < |samples| ==> basePrice <= samples[i].price) ==>
            r.cheapestPrice == basePrice && r.cheapestUserId == "" && r.cheapestHour == 0
            && r.cheapestPercentage == Finite(100.0))
      && IsFirstMinimum(Start(basePrice), samples, Quote(r.cheapestPrice, r.cheapestHour, r.cheapestUserId))
  {
    var samples := Samples(prices, ids, currentHour, users, hours);
    var r := GlobalCheapestFrom(prices, ids, basePrice, currentHour, users, hours);
    var best := Cheapest(Start(basePrice), samples);
    SamplesLength(prices, ids, currentHour, users, hours);
    CheapestIsFirstMinimum(Start(basePrice), samples);
    assert |r.priceDistribution| == |multiset(r.priceDistribution)| == |multiset(PricesOf(samples))| == |samples|;
    forall i | 0 <= i < |r.priceDistribution|
      ensures r.cheapestPrice <= r.priceDistribution[i]
    {
      assert r.priceDistribution[i] in multiset(PricesOf(samples));
      var j :| 0 <= j < |samples| && PricesOf(samples)[j] == r.priceDistribution[i];
    }
  }

  /** The reported cheapest price is the smaller of the base and the lowest sampled price. */
  lemma CheapestIsBaseOrLowestSample(prices: (string, int) -> int, ids: nat -> string, basePrice: int, currentHour: int,
                                     users: int, hours: int)
    ensures var r := GlobalCheapestFrom(prices, ids, basePrice, currentHour, users, hours);
      |r.priceDistribution| > 0 ==> r.cheapestPrice == Min(basePrice, r.priceDistribution[0])
  {
    var samples := Samples(prices, ids, currentHour, users, hours);
    var r := GlobalCheapestFrom(prices, ids, basePrice, currentHour, users, hours);
    GlobalCheapestFromProperties(prices, ids, basePrice, currentHour, users, hours);
    var best := Cheapest(Start(basePrice), samples);
    if best != Start(basePrice) && |r.priceDistribution| > 0 {
      var j :| 0 <= j < |samples| && samples[j] == best;
      assert PricesOf(samples)[j] == best.price;
      assert best.price in multiset(r.priceDistribution);
      var i :| 0 <= i < |r.priceDistribution| && r.priceDistribution[i] == best.price;
      assert r.priceDistribution[0] <= r.priceDistribution[i];
    }
  }

  /** For any price table whose entries lie in [lo, hi] with lo >= 1, and whose user ids are
      never empty: every price in the distribution lies in [lo, hi], the percentage is always
      finite (a winning sample costs at least 1, so a base it undercuts is not 0), and a
      non-empty winning user id names a real (user, hour) entry of the sampled range. */
  lemma BandedTableProperties(prices: (string, int) -> int, ids: nat -> string, basePrice: int, currentHour: int,
                              users: int, hours: int, lo: int, hi: int)
    requires 1 <= lo
    requires forall id, h :: lo <= prices(id, h) <= hi
    requires forall u :: ids(u) != ""
    ensures var r := GlobalCheapestFrom(prices, ids, basePrice, currentHour, users, hours);
      && (forall i :: 0 <= i < |r.priceDistribution| ==> lo <= r.priceDistribution[i] <= hi)
      && r.cheapestPercentage.Finite?
      && (r.cheapestUserId != "" ==>
            IsTableEntry(prices, ids, currentHour, users, hours, Quote(r.cheapestPrice, r.cheapestHour, r.cheapestUserId)))
  {
    var samples := Samples(prices, ids, currentHour, users, hours);
    var r := GlobalCheapestFrom(prices, ids, basePrice, currentHour, users, hours);
    var best := Cheapest(Start(basePrice), samples);
    SamplesAreTableEntries(prices, ids, currentHour, users, hours);
    forall i | 0 <= i < |r.priceDistribution|
      ensures lo <= r.priceDistribution[i] <= hi
    {
      assert r.priceDistribution[i] in multiset(PricesOf(samples));
      var j :| 0 <= j < |samples| && PricesOf(samples)[j] == r.priceDistribution[i];
      assert IsTableEntry(prices, ids, currentHour, users, hours, samples[j]);
    }
    if best != Start(basePrice) {
      var j :| 0 <= j < |samples| && samples[j] == best;
      assert IsTableEntry(prices, ids, currentHour, users, hours, samples[j]);
      assert best.price >= 1;
    } else {
      assert r.cheapestUserId == "";
    }
  }

  /** The shop's price map stays in the band around a non-negative base for every user and hour. */
  lemma MarketPricesWithinBand(sha: Digest, itemId: string, basePrice: int, minPercent: int, maxPercent: int)
    requires basePrice >= 0
    ensures var b := SafeBounds(minPercent, maxPercent);
      forall id, h :: Max(1, MinPrice(basePrice, b)) <= MarketPrices(sha, itemId, basePrice, minPercent, maxPercent)(id, h)
                                                     <= Max(1, MaxPrice(basePrice, b))
  {
    var b := SafeBounds(minPercent, maxPercent);
    forall id, h
      ensures Max(1, MinPrice(basePrice, b)) <= MarketPrices(sha, itemId, basePrice, minPercent, maxPercent)(id, h)
                                             <= Max(1, MaxPrice(basePrice, b))
    {
      var p := PriceAtHour(sha, id, itemId, basePrice, minPercent, maxPercent, h);
    }
  }

  /** Every price in the distribution lies in the band the price map guarantees around a
      non-negative base. */
  lemma DistributionWithinBand(sha: Digest, itemId: string, basePrice: int, minPercent: int, maxPercent: int,
                               sampleUsers: int, hoursToCheck: int, nowMs: int)
    requires basePrice >= 0
    ensures var r := GlobalCheapestPrice(sha, itemId, basePrice, minPercent, maxPercent, sampleUsers, hoursToCheck, nowMs);
      var b := SafeBounds(minPercent, maxPercent);
      forall i :: 0 <= i < |r.priceDistribution| ==>
        Max(1, MinPrice(basePrice, b)) <= r.priceDistribution[i] <= Max(1, MaxPrice(basePrice, b))
  {
    var b := SafeBounds(minPercent, maxPercent);
    MarketPricesWithinBand(sha, itemId, basePrice, minPercent, maxPercent);
    BandedTableProperties(MarketPrices(sha, itemId, basePrice, minPercent, maxPercent), FakeUserId, basePrice,
                          CurrentHour(nowMs), sampleUsers, hoursToCheck,
                          Max(1, MinPrice(basePrice, b)), Max(1, MaxPrice(basePrice, b)));
  }

  /** For the shop's price map and a non-negative base: the percentage is always finite, and
      a winning sample is a real (user, hour) pair of the sampled range, priced by the map. */
  lemma GlobalCheapestPriceProperties(sha: Digest, itemId: string, basePrice: int, minPercent: int, maxPercent: int,
                                      sampleUsers: int, hoursToCheck: int, nowMs: int)
    requires basePrice >= 0
    ensures var r := GlobalCheapestPrice(sha, itemId, basePrice, minPercent, maxPercent, sampleUsers, hoursToCheck, nowMs);
      var h := CurrentHour(nowMs);
      && r.cheapestPercentage.Finite?
      && (r.cheapestUserId != "" ==>
            && r.cheapestPrice == PriceAtHour(sha, r.cheapestUserId, itemId, basePrice, minPercent, maxPercent, r.cheapestHour)
            && h <= r.cheapestHour < h + hoursToCheck
            && exists u :: 0 <= u < sampleUsers && r.cheapestUserId == FakeUserId(u))
  {
    var prices := MarketPrices(sha, itemId, basePrice, minPercent, maxPercent);
    var h := CurrentHour(nowMs);
    var b := SafeBounds(minPercent, maxPercent);
    MarketPricesWithinBand(sha, itemId, basePrice, minPercent, maxPercent);
    BandedTableProperties(prices, FakeUserId, basePrice, h, sampleUsers, hoursToCheck,
                          Max(1, MinPrice(basePrice, b)), Max(1, MaxPrice(basePrice, b)));
    var r := GlobalCheapestFrom(prices, FakeUserId, basePrice, h, sampleUsers, hoursToCheck);
    if r.cheapestUserId != "" {
      var q := Quote(r.cheapestPrice, r.cheapestHour, r.cheapestUserId);
      assert IsTableEntry(prices, FakeUserId, h, sampleUsers, hoursToCheck, q);
      assert prices(q.tag, q.hour) == PriceAtHour(sha, q.tag, itemId, basePrice, minPercent, maxPercent, q.hour);
    }
  }
}
