/**
 * Numeric vocabulary shared by the model: the source computes in IEEE-754
 * doubles; the model computes in exact reals and spells out the few places
 * where the double semantics matter (NaN and infinities, the largest finite
 * double used as a sentinel, .NET's rounding and truncating conversions).
 */
module Numerics {

  /** double.MaxValue, which the optimizer uses as the fitness of an infeasible candidate. */
  const DoubleMax: real := 1.7976931348623157e308

  /** A double as far as the model needs it: a finite value, NaN, or an infinity. */
  datatype Double = Finite(value: real) | NaN | PosInf | NegInf
  {
    predicate IsNaN() { NaN? }
  }

  function Abs(x: real): (r: real)
    ensures r >= 0.0 && (r == x || r == -x)
  {
    if x < 0.0 then -x else x
  }

  function Max(x: real, y: real): (r: real)
    ensures r >= x && r >= y && (r == x || r == y)
  {
    if x < y then y else x
  }

  function Min(x: real, y: real): (r: real)
    ensures r <= x && r <= y && (r == x || r == y)
  {
    if x < y then x else y
  }

  /** IEEE division: a zero divisor gives NaN (0/0) or an infinity of the dividend's sign. */
  function Divide(n: real, d: real): (r: Double)
    ensures d != 0.0 ==> r.Finite? && r.value * d == n
    ensures d == 0.0 ==> (r.NaN? <==> n == 0.0) && !r.Finite?
  {
    if d != 0.0 then Finite(n / d)
    else if n == 0.0 then NaN
    else if n > 0.0 then PosInf
    else NegInf
  }

  /** The C# cast (int)x of a finite double: truncation toward zero. */
  function Truncate(x: real): (r: int)
    ensures x >= 0.0 ==> r as real <= x < r as real + 1.0
    ensures x < 0.0 ==> r as real - 1.0 < x <= r as real
  {
    if x >= 0.0 then x.Floor else -((-x).Floor)
  }

  /**
   * Math.Round(x) with .NET's default MidpointRounding.ToEven: the nearest
   * integer, and the even one of the two when x lies exactly half-way.
   */
  function RoundHalfEven(x: real): (r: int)
    ensures -0.5 <= x - r as real <= 0.5
    ensures (x - r as real == 0.5 || x - r as real == -0.5) ==> r % 2 == 0
  {
    var f := x.Floor;
    var frac := x - f as real;
    if frac < 0.5 then f
    else if frac > 0.5 then f + 1
    else if f % 2 == 0 then f
    else f + 1
  }

  /** Rounding is the identity on whole numbers. */
  lemma RoundHalfEvenOfInteger(k: int)
    ensures RoundHalfEven(k as real) == k
  {
    assert (k as real).Floor == k;
  }

  /** The two clauses of RoundHalfEven's contract determine its result. */
  lemma RoundHalfEvenUnique(x: real, r: int)
    requires -0.5 <= x - r as real <= 0.5
    requires (x - r as real == 0.5 || x - r as real == -0.5) ==> r % 2 == 0
    ensures RoundHalfEven(x) == r
  {
    var s := RoundHalfEven(x);
    assert -1.0 <= s as real - r as real <= 1.0;
  }
}
