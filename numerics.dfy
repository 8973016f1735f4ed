/**
 * The floating-point values the program branches on. A double is a finite
 * real or one of the IEEE special values; arithmetic is exact real
 * arithmetic, so rounding is not modelled.
 */
module Numerics {

  datatype Double = Finite(value: real) | NaN | PosInf | NegInf
  {
    /** !double.IsNaN(x) && !double.IsInfinity(x). */
    predicate IsFinite() { this.Finite? }

    /** The value with NaN and the infinities replaced by 0, as several readers of samples do. */
    function OrZero(): (r: real)
      ensures this.Finite? ==> r == value
      ensures !this.Finite? ==> r == 0.0
    {
      if this.Finite? then value else 0.0
    }
  }

  /** Math.Clamp(x, lo, hi) for a finite x. */
  function Clamp(x: real, lo: real, hi: real): (r: real)
    requires lo <= hi
    ensures lo <= r <= hi
    ensures lo <= x <= hi ==> r == x
    ensures x < lo ==> r == lo
    ensures x > hi ==> r == hi
  {
    if x < lo then lo else if x > hi then hi else x
  }

  /** Math.Clamp(x, lo, hi) for an int. */
  function ClampInt(x: int, lo: int, hi: int): (r: int)
    requires lo <= hi
    ensures lo <= r <= hi
    ensures lo <= x <= hi ==> r == x
    ensures x < lo ==> r == lo
    ensures x > hi ==> r == hi
  {
    if x < lo then lo else if x > hi then hi else x
  }

  function Max(a: real, b: real): (r: real)
    ensures r >= a && r >= b && (r == a || r == b)
  {
    if a >= b then a else b
  }

  function Min(a: real, b: real): (r: real)
    ensures r <= a && r <= b && (r == a || r == b)
  {
    if a <= b then a else b
  }

  function Abs(x: real): (r: real)
    ensures r >= 0.0 && (r == x || r == -x)
  {
    if x < 0.0 then -x else x
  }

  function Sum(xs: seq<real>): (r: real)
  {
    if xs == [] then 0.0 else xs[0] + Sum(xs[1..])
  }

  function SumInt(xs: seq<int>): (r: int)
  {
    if xs == [] then 0 else xs[0] + SumInt(xs[1..])
  }

  lemma {:induction false} SumAppend(a: seq<real>, b: seq<real>)
    ensures Sum(a + b) == Sum(a) + Sum(b)
  {
    if a != [] {
      assert (a + b)[1..] == a[1..] + b;
      SumAppend(a[1..], b);
    } else {
      assert a + b == b;
    }
  }

  lemma {:induction false} SumIntAppend(a: seq<int>, b: seq<int>)
    ensures SumInt(a + b) == SumInt(a) + SumInt(b)
  {
    if a != [] {
      assert (a + b)[1..] == a[1..] + b;
      SumIntAppend(a[1..], b);
    } else {
      assert a + b == b;
    }
  }

  lemma {:induction false} SumNonNegative(xs: seq<real>)
    requires forall i :: 0 <= i < |xs| ==> xs[i] >= 0.0
    ensures Sum(xs) >= 0.0
  {
    if xs != [] {
      SumNonNegative(xs[1..]);
    }
  }

  /** The integer part of a non-negative real, as a cast of a double to int does. */
  function Floor(x: real): (n: int)
    ensures n as real <= x < n as real + 1.0
  {
    x.Floor
  }

  /** Math.Ceiling of a ratio of naturals. */
  function CeilDiv(a: nat, b: nat): (n: nat)
    requires b > 0
    ensures n * b >= a && (n == 0 || (n - 1) * b < a)
  {
    (a + b - 1) / b
  }

  /** Rounding to the nearest integer with ties to even, as Convert.ToInt32(double) and Math.Round do. */
  function RoundHalfEven(x: real): (n: int)
    ensures -0.5 <= n as real - x <= 0.5
    ensures (n as real - x == 0.5 || x - n as real == 0.5) ==> n % 2 == 0
  {
    var f := x.Floor;
    var d := x - f as real;
    if d < 0.5 then f
    else if d > 0.5 then f + 1
    else if f % 2 == 0 then f
    else f + 1
  }
}
