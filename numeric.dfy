/**
 * Real vectors (Eigen::VectorXd) and the floating-point limits the optimiser code compares
 * against. Floating-point numbers are modelled as reals; a value that may be infinite or
 * NaN is a Double.
 */
module Numeric {

  /** DBL_MAX, FLT_MAX, FLT_EPSILON (2^-23) and FLT_MIN (2^-126) as exact reals. */
  const DBL_MAX: real := 1.7976931348623157e308
  const FLT_MAX: real := 340282346638528859811704183484516925440.0
  const FLT_EPSILON: real := 1.1920928955078125e-7
  const FLT_MIN: real := 1.1754943508222875e-38

  /** glm::vec2 and glm::vec3. */
  datatype Vec2 = Vec2(x: real, y: real)
  datatype Vec3 = Vec3(x: real, y: real, z: real)

  /** A double that may be non-finite (infinity or NaN). */
  datatype Double = Finite(value: real) | NonFinite

  function Zeros(n: nat): (z: seq<real>)
    ensures |z| == n && forall i :: 0 <= i < n ==> z[i] == 0.0
  {
    seq(n, _ => 0.0)
  }

  /** a - b */
  function Sub(a: seq<real>, b: seq<real>): (r: seq<real>)
    requires |a| == |b|
    ensures |r| == |a| && forall i :: 0 <= i < |a| ==> r[i] == a[i] - b[i]
  {
    seq(|a|, i requires 0 <= i < |a| => a[i] - b[i])
  }

  /** c * a */
  function Scale(c: real, a: seq<real>): (r: seq<real>)
    ensures |r| == |a| && forall i :: 0 <= i < |a| ==> r[i] == c * a[i]
  {
    seq(|a|, i requires 0 <= i < |a| => c * a[i])
  }

  function Square(x: real): real
  {
    x * x
  }

  /** The sum of the squares of the first n entries. */
  function SquaredNormOf(a: seq<real>, n: nat): real
    requires n <= |a|
  {
    if n == 0 then 0.0 else SquaredNormOf(a, n - 1) + Square(a[n - 1])
  }

  /** squaredNorm(): the sum of the squared entries, accumulated front to back. */
  function SquaredNorm(a: seq<real>): real
  {
    SquaredNormOf(a, |a|)
  }

  lemma {:induction false} SquaredNormOfNonNegative(a: seq<real>, n: nat)
    requires n <= |a|
    ensures SquaredNormOf(a, n) >= 0.0
  {
    if n > 0 {
      SquaredNormOfNonNegative(a, n - 1);
      SquareSign(a[n - 1]);
    }
  }

  lemma SquaredNormNonNegative(a: seq<real>)
    ensures SquaredNorm(a) >= 0.0
  {
    SquaredNormOfNonNegative(a, |a|);
  }

  /** A scaled non-negative quantity keeps its sign, and is zero only when it was. */
  lemma ScaledSign(c: real, q: real)
    requires q >= 0.0
    ensures c >= 0.0 ==> c * q >= 0.0
    ensures c > 0.0 ==> (c * q == 0.0 <==> q == 0.0)
  {
    if c > 0.0 && q > 0.0 {
      assert c * q > 0.0;
    }
  }

  lemma PositiveSquare(y: real)
    requires y > 0.0
    ensures y * y > 0.0
  {
  }

  /** A square is never negative and is zero only at zero. */
  lemma SquareSign(x: real)
    ensures x == 0.0 ==> Square(x) == 0.0
    ensures x != 0.0 ==> Square(x) > 0.0
  {
    if x < 0.0 {
      calc {
        Square(x);
      ==
        (-x) * (-x);
      > { PositiveSquare(-x); }
        0.0;
      }
    } else if x > 0.0 {
      calc {
        Square(x);
      ==
        x * x;
      > { PositiveSquare(x); }
        0.0;
      }
    }
  }

  /** The squared norm of a prefix is zero exactly when the prefix is all zero. */
  lemma {:induction false} SquaredNormOfZero(a: seq<real>, n: nat)
    requires n <= |a|
    ensures SquaredNormOf(a, n) == 0.0 <==> forall i :: 0 <= i < n ==> a[i] == 0.0
  {
    if n > 0 {
      SquaredNormOfZero(a, n - 1);
      SquaredNormOfNonNegative(a, n - 1);
      SquareSign(a[n - 1]);
    }
  }

  /** The squared norm is zero exactly for the zero vector. */
  lemma SquaredNormZero(a: seq<real>)
    ensures SquaredNorm(a) == 0.0 <==> forall i :: 0 <= i < |a| ==> a[i] == 0.0
  {
    SquaredNormOfZero(a, |a|);
  }
}
