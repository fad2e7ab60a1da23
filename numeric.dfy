/** Exact real-number models of the rounding helpers the pricing code calls
    (JavaScript `Math.floor`/`Math.ceil`/`Math.round`, Python `round`) and of the
    values a JavaScript division can produce (a finite number, an infinity, NaN). */
module Numeric {

  function Max(a: int, b: int): int { if a >= b then a else b }

  function Min(a: int, b: int): int { if a <= b then a else b }

  function Abs(x: real): real { if x < 0.0 then -x else x }

  /** `Math.floor` / `math.floor`: the greatest integer not above x. */
  function Floor(x: real): (r: int)
    ensures r as real <= x < r as real + 1.0
  {
    x.Floor
  }

  /** `Math.ceil` / `math.ceil`: the least integer not below x. */
  function Ceil(x: real): (r: int)
    ensures x <= r as real < x + 1.0
  {
    -((-x).Floor)
  }

  /** JavaScript `Math.round`: the nearest integer, a half rounded up (toward +infinity). */
  function JsRound(x: real): (r: int)
    ensures x - 0.5 < r as real <= x + 0.5
  {
    Floor(x + 0.5)
  }

  /** Python 3 `round` with one argument: the nearest integer, a half rounded to the even neighbour. */
  function PyRound(x: real): (r: int)
    ensures x - 0.5 <= r as real <= x + 0.5
    ensures (r as real == x - 0.5 || r as real == x + 0.5) ==> r % 2 == 0
  {
    RoundHalfEven(Floor(x), x - Floor(x) as real)
  }

  /** Rounding f + d, for an integer f and a fraction d in [0, 1), to the nearest integer,
      a half going to the even neighbour. */
  function RoundHalfEven(f: int, d: real): (r: int)
    requires 0.0 <= d < 1.0
    ensures f as real + d - 0.5 <= r as real <= f as real + d + 0.5
    ensures (r as real == f as real + d - 0.5 || r as real == f as real + d + 0.5) ==> r % 2 == 0
    ensures d < 0.5 ==> r == f
    ensures d > 0.5 ==> r == f + 1
  {
    if d < 0.5 then f
    else if d > 0.5 then f + 1
    else if f % 2 == 0 then f
    else f + 1
  }

  lemma FloorMonotone(x: real, y: real)
    requires x <= y
    ensures Floor(x) <= Floor(y)
  {
  }

  /** Multiplying by a non-negative factor keeps an inequality. */
  lemma MulMonotone(a: real, x: real, y: real)
    requires a >= 0.0 && x <= y
    ensures a * x <= a * y
  {
  }

  /** Multiplying by a positive factor keeps a strict inequality. */
  lemma MulStrictMonotone(a: real, x: real, y: real)
    requires a > 0.0 && x < y
    ensures a * x < a * y
  {
  }

  /** A non-negative base times a multiplier in [lo / 100, hi / 100] lies between the base's
      lo and hi percent. */
  lemma ScaleBetween(b: real, lo: real, m: real, hi: real)
    requires b >= 0.0 && lo / 100.0 <= m <= hi / 100.0
    ensures b * lo / 100.0 <= b * m <= b * hi / 100.0
  {
    MulMonotone(b, lo / 100.0, m);
    MulMonotone(b, m, hi / 100.0);
    assert b * lo / 100.0 == b * (lo / 100.0);
    assert b * hi / 100.0 == b * (hi / 100.0);
  }

  /** x lies exactly half-way between two integers. */
  predicate IsHalfInteger(x: real)
  {
    x - Floor(x) as real == 0.5
  }

  /** The two roundings differ only where Python's tie rule applies. */
  lemma {:induction false} RoundingsAgreeOffTies(x: real)
    ensures !IsHalfInteger(x) ==> PyRound(x) == JsRound(x)
    ensures IsHalfInteger(x) ==> JsRound(x) == Floor(x) + 1
    ensures IsHalfInteger(x) ==> PyRound(x) == (if Floor(x) % 2 == 0 then Floor(x) else Floor(x) + 1)
  {
    var f := Floor(x);
    if IsHalfInteger(x) {
      assert x + 0.5 == (f + 1) as real;
    } else if x - f as real < 0.5 {
      assert f as real <= x + 0.5 < (f + 1) as real;
    } else {
      assert (f + 1) as real <= x + 0.5 < (f + 2) as real;
    }
  }

  /** An integer is its own JavaScript rounding when it is the only integer in (x - 1/2, x + 1/2]. */
  lemma JsRoundUnique(x: real, n: int)
    requires x - 0.5 < n as real <= x + 0.5
    ensures JsRound(x) == n
  {
  }

  /** A JavaScript number: what a division of two finite numbers can yield. */
  datatype Num = Finite(value: real) | PosInf | NegInf | NaN

  /** `a / b` in JavaScript for finite a and b (b == 0 gives an infinity, or NaN for 0 / 0). */
  function Divide(a: real, b: real): (r: Num)
    ensures b != 0.0 <==> r.Finite?
    ensures r == NaN <==> a == 0.0 && b == 0.0
  {
    if b != 0.0 then Finite(a / b)
    else if a > 0.0 then PosInf
    else if a < 0.0 then NegInf
    else NaN
  }

  /** `x * k` in JavaScript for a positive finite factor k. */
  function Scale(x: Num, k: real): (r: Num)
    requires k > 0.0
  {
    match x
    case Finite(v) => Finite(v * k)
    case _ => x
  }

  /** `x - y` in JavaScript. */
  function Subtract(x: Num, y: Num): Num
  {
    match (x, y)
    case (Finite(a), Finite(b)) => Finite(a - b)
    case (NaN, _) => NaN
    case (_, NaN) => NaN
    case (PosInf, PosInf) => NaN
    case (NegInf, NegInf) => NaN
    case (PosInf, _) => PosInf
    case (NegInf, _) => NegInf
    case (_, PosInf) => NegInf
    case (_, NegInf) => PosInf
  }

  /** Unary minus in JavaScript. */
  function Negate(x: Num): Num
  {
    match x
    case Finite(v) => Finite(-v)
    case PosInf => NegInf
    case NegInf => PosInf
    case NaN => NaN
  }

  /** `x <= bound` in JavaScript for a finite bound: false for NaN and +Infinity. */
  predicate AtMost(x: Num, bound: real)
  {
    match x
    case Finite(v) => v <= bound
    case NegInf => true
    case _ => false
  }

  /** `x < 0` in JavaScript. */
  predicate IsNegative(x: Num)
  {
    (x.Finite? && x.value < 0.0) || x == NegInf
  }

  /** `x > 0` in JavaScript. */
  predicate IsPositive(x: Num)
  {
    (x.Finite? && x.value > 0.0) || x == PosInf
  }

  /** Swapping the operands of a subtraction swaps the sign of the result; NaN, from an
      infinity minus itself or a NaN operand, has neither sign either way. */
  lemma SubtractSwapsSign(x: Num, y: Num)
    ensures IsPositive(Subtract(x, y)) <==> IsNegative(Subtract(y, x))
  {
  }

  /** Negation swaps the sign a comparator result reports, and leaves NaN (neither sign) as it is. */
  lemma NegateSwapsSign(x: Num)
    ensures IsNegative(Negate(x)) <==> IsPositive(x)
    ensures IsPositive(Negate(x)) <==> IsNegative(x)
    ensures Negate(Negate(x)) == x
  {
  }
}
