/** The stand-alone reverse-engineering helper src/lib/tests/reverse-engineer.ts: it undoes the
    hour's multiplier and then picks, among floor, Math.round and ceil of the quotient, the one
    nearest to it, keeping the earlier one on a tie. */
module ReverseCheck {
  import opened Numeric
  import opened HourlyHash
  import opened Pricing

  /** One step of the `reduce`: the value replaces the best so far only when strictly nearer
      to the target. */
  function Nearer(best: int, val: int, target: real): int
  {
    if Abs(val as real - target) < Abs(best as real - target) then val else best
  }

  /** `reduce` without an initial value, as a left fold of Nearer starting from best. */
  function ReduceNearest(best: int, rest: seq<int>, target: real): int
    decreases |rest|
  {
    if rest == [] then best else ReduceNearest(Nearer(best, rest[0], target), rest[1..], target)
  }

  /** The fold keeps the element nearest to the target, the first such on a tie: the result
      is the start or one of the rest, no element is nearer, and no element before the result
      is as near. */
  lemma {:induction false} ReduceNearestProperties(best: int, rest: seq<int>, target: real)
    ensures var r := ReduceNearest(best, rest, target);
      && (r == best || r in rest)
      && Abs(r as real - target) <= Abs(best as real - target)
      && (forall i :: 0 <= i < |rest| ==> Abs(r as real - target) <= Abs(rest[i] as real - target))
      && (r != best ==> Abs(r as real - target) < Abs(best as real - target))
    decreases |rest|
  {
    if rest != [] {
      var next := Nearer(best, rest[0], target);
      ReduceNearestProperties(next, rest[1..], target);
      var r := ReduceNearest(best, rest, target);
      assert r == ReduceNearest(next, rest[1..], target);
      forall i | 0 <= i < |rest|
        ensures Abs(r as real - target) <= Abs(rest[i] as real - target)
      {
        if i > 0 {
          assert rest[i] == rest[1..][i - 1];
        }
      }
    }
  }

  /** Lines 31-34: the nearest of floor, Math.round and ceil of the quotient. */
  function NearestCandidate(approxBase: real): int
  {
    var possible := [Floor(approxBase), JsRound(approxBase), Ceil(approxBase)];
    ReduceNearest(possible[0], possible[1..], approxBase)
  }

  /** The helper returns one of the three candidates, within one half of the quotient: it
      rounds to the nearest integer and resolves a tie downward, that is, it is the ceiling
      of the quotient minus one half; so it is Math.round except exactly half-way between
      two integers, where it is one less. */
  lemma NearestCandidateRoundsHalfDown(approxBase: real)
    ensures var r := NearestCandidate(approxBase);
      r == Floor(approxBase) || r == JsRound(approxBase) || r == Ceil(approxBase)
    ensures Abs(NearestCandidate(approxBase) as real - approxBase) <= 0.5
    ensures NearestCandidate(approxBase) == Ceil(approxBase - 0.5)
    ensures !IsHalfInteger(approxBase) ==> NearestCandidate(approxBase) == JsRound(approxBase)
    ensures IsHalfInteger(approxBase) ==> NearestCandidate(approxBase) == JsRound(approxBase) - 1
  {
    var f := Floor(approxBase);
    var possible := [f, JsRound(approxBase), Ceil(approxBase)];
    assert possible[1..] == [JsRound(approxBase), Ceil(approxBase)];
    ReduceNearestProperties(f, possible[1..], approxBase);
    var r := NearestCandidate(approxBase);
    assert r == f || r == JsRound(approxBase) || r == Ceil(approxBase);
    var d := approxBase - f as real;
    if d < 0.5 {
      assert r == f;
    } else if d > 0.5 {
      assert r == f + 1;
    } else {
      assert r == f;
    }
  }

  /** `reverseBasePrice`: undo the multiplier of the hour containing nowMs, then pick the
      nearest candidate. */
  function ReverseBasePrice(sha: Digest, userId: string, itemId: string, finalPrice: int,
                            minPercent: int, maxPercent: int, nowMs: int): int
  {
    var approxBase := finalPrice as real / Multiplier(sha, userId, itemId, minPercent, maxPercent, CurrentHour(nowMs));
    NearestCandidate(approxBase)
  }

  /** The helper agrees with the engine's reverseEngineerBasePrice at the same hour except
      when the quotient is exactly half-way between two integers, where it answers one less. */
  lemma HelperAgreesWithEngine(sha: Digest, userId: string, itemId: string, finalPrice: int,
                               minPercent: int, maxPercent: int, nowMs: int)
    ensures var approxBase := finalPrice as real / Multiplier(sha, userId, itemId, minPercent, maxPercent, CurrentHour(nowMs));
      var engine := Pricing.ReverseEngineerBasePrice(sha, userId, itemId, finalPrice, minPercent, maxPercent, CurrentHour(nowMs));
      && (!IsHalfInteger(approxBase) ==> ReverseBasePrice(sha, userId, itemId, finalPrice, minPercent, maxPercent, nowMs) == engine)
      && (IsHalfInteger(approxBase) ==> ReverseBasePrice(sha, userId, itemId, finalPrice, minPercent, maxPercent, nowMs) == engine - 1)
  {
    var approxBase := finalPrice as real / Multiplier(sha, userId, itemId, minPercent, maxPercent, CurrentHour(nowMs));
    NearestCandidateRoundsHalfDown(approxBase);
  }
}
