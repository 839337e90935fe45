/**
  Two-dimensional vectors over the reals: the value type behind every
  position, movement intent and velocity of the simulation (class Vector of
  rooms/02-state-handler.ts).  Vector.mag is only ever compared against a
  threshold, so the model works with its square and never needs a square
  root; Vector.normalized is a parameter of the operations that use it,
  IsNormalizer states what it promises, and MagNormalizes shows that the
  source's division by mag() keeps that promise.
*/
module Vectors {

  datatype Vector = Vector(x: real, y: real)

  const Zero: Vector := Vector(0.0, 0.0)

  function Add(a: Vector, b: Vector): Vector
  {
    Vector(a.x + b.x, a.y + b.y)
  }

  function Sub(a: Vector, b: Vector): Vector
  {
    Vector(a.x - b.x, a.y - b.y)
  }

  /** The square of Vector.mag: x*x + y*y. */
  function MagSquared(v: Vector): real
  {
    v.x * v.x + v.y * v.y
  }

  /** Squaring is strictly increasing on the non-negative reals. */
  lemma SquareIncreasing(m: real, r: real)
    requires 0.0 <= m < r
    ensures m * m < r * r
  {
    assert m * (r - m) >= 0.0;
    assert r * (r - m) > 0.0;
    assert (m + r) * (r - m) > 0.0;
    assert (m + r) * (r - m) == r * r - m * m;
  }

  /** mag(v) < r for a non-negative threshold r. */
  predicate ShorterThan(v: Vector, r: real)
  {
    MagSquared(v) < r * r
  }

  /** mag(v) > r for a non-negative threshold r. */
  predicate LongerThan(v: Vector, r: real)
  {
    MagSquared(v) > r * r
  }

  /**
    Comparing squares decides the same as comparing magnitudes: for any
    non-negative m whose square is MagSquared(v) (that is, m is mag(v)) and
    any non-negative threshold r, m < r exactly when ShorterThan(v, r), and
    m > r exactly when LongerThan(v, r).
  */
  lemma MagThreshold(v: Vector, m: real, r: real)
    requires m >= 0.0 && m * m == MagSquared(v) && r >= 0.0
    ensures m < r <==> ShorterThan(v, r)
    ensures m > r <==> LongerThan(v, r)
  {
    if m < r {
      SquareIncreasing(m, r);
    } else if m > r {
      SquareIncreasing(r, m);
    }
  }

  /** u points the same way as v: the two are parallel and their dot product is positive. */
  predicate SameDirection(u: Vector, v: Vector)
  {
    u.x * v.y == u.y * v.x && u.x * v.x + u.y * v.y > 0.0
  }

  /**
    What Vector.normalized promises of every non-zero argument: a result of
    unit length pointing the same way.  The source's callers never pass the
    zero vector, so nothing is asked of norm there.
  */
  ghost predicate IsNormalizer(norm: Vector -> Vector)
  {
    forall v :: v != Zero ==> SameDirection(norm(v), v) && MagSquared(norm(v)) == 1.0
  }

  /**
    Vector.normalized given the magnitude m of v: each coordinate divided by
    m.  The source computes m as mag(), the square root of MagSquared(v).
  */
  function Normalized(v: Vector, m: real): Vector
    requires m > 0.0 && m * m == MagSquared(v)
  {
    Vector(v.x / m, v.y / m)
  }

  /** A positive b that a scales to itself forces a to be 1. */
  lemma UnitFactor(a: real, b: real)
    requires b * a == b && b > 0.0
    ensures a == 1.0
  {
  }

  /** The square of a positive number is positive. */
  lemma SquarePositive(b: real, m: real)
    requires b == m * m && m > 0.0
    ensures b > 0.0
  {
    SquareIncreasing(0.0, m);
  }

  /** ScaledMagSquared with the square of the factor given as s. */
  lemma ScaledBy(v: Vector, k: real, s: real)
    requires s == k * k
    ensures MagSquared(Vector(v.x * k, v.y * k)) == s * MagSquared(v)
  {
    ScaledMagSquared(v, k);
  }

  /** Dividing by the magnitude keeps the direction and makes the length 1. */
  lemma {:induction false} NormalizedIsUnit(v: Vector, m: real)
    requires m > 0.0 && m * m == MagSquared(v)
    ensures SameDirection(Normalized(v, m), v)
    ensures MagSquared(Normalized(v, m)) == 1.0
  {
    var u := Normalized(v, m);
    assert u.x * m == v.x && u.y * m == v.y;
    assert Vector(u.x * m, u.y * m) == v;
    ScaledBy(u, m, MagSquared(v));
    SquarePositive(MagSquared(v), m);
    assert MagSquared(Vector(u.x * m, u.y * m)) == MagSquared(v) * MagSquared(u);
    assert MagSquared(Vector(u.x * m, u.y * m)) == MagSquared(v);
    assert MagSquared(v) * MagSquared(u) == MagSquared(v);
    assert MagSquared(v) > 0.0;
    UnitFactor(MagSquared(u), MagSquared(v));
    assert u.x * v.y == u.y * v.x by {
      assert u.x * v.y == u.x * (u.y * m);
      assert u.y * v.x == u.y * (u.x * m);
    }
    assert u.x * v.x + u.y * v.y == MagSquared(u) * m by {
      assert u.x * v.x == (u.x * u.x) * m;
      assert u.y * v.y == (u.y * u.y) * m;
    }
  }

  /** A non-zero vector has a positive magnitude. */
  lemma MagPositive(v: Vector, m: real)
    requires v != Zero && m >= 0.0 && m * m == MagSquared(v)
    ensures m > 0.0
  {
    if m == 0.0 {
      AxisWithin(v, m);
    }
  }

  /** What Vector.mag promises: the non-negative square root of MagSquared(v). */
  ghost predicate IsMag(mag: Vector -> real)
  {
    forall v :: mag(v) >= 0.0 && mag(v) * mag(v) == MagSquared(v)
  }

  /**
    Vector.normalized as the source computes it, v divided by mag(v), meets
    IsNormalizer whenever mag is a square root; the zero vector, on which
    the source would divide by zero, is mapped to Zero.
  */
  lemma {:induction false} MagNormalizes(mag: Vector -> real)
    requires IsMag(mag)
    ensures IsNormalizer(v => if v == Zero || mag(v) == 0.0 then Zero else Normalized(v, mag(v)))
  {
    var norm := v => if v == Zero || mag(v) == 0.0 then Zero else Normalized(v, mag(v));
    forall v | v != Zero
      ensures SameDirection(norm(v), v) && MagSquared(norm(v)) == 1.0
    {
      var m := mag(v);
      MagPositive(v, m);
      NormalizedIsUnit(v, m);
    }
  }

  /** A unit vector pointing the same way as a vector along the positive x axis is (1, 0). */
  lemma {:induction false} UnitAlongX(u: Vector, v: Vector)
    requires SameDirection(u, v) && MagSquared(u) == 1.0
    requires v.y == 0.0 && v.x > 0.0
    ensures u == Vector(1.0, 0.0)
  {
    assert u.y * v.x == 0.0;
    assert u.y == 0.0;
    assert u.x * v.x > 0.0;
    assert u.x > 0.0;
    assert u.x * u.x == 1.0;
    assert (u.x - 1.0) * (u.x + 1.0) == 0.0;
  }

  /** Scaling a vector scales its squared magnitude by the square of the factor. */
  lemma ScaledMagSquared(v: Vector, k: real)
    ensures MagSquared(Vector(v.x * k, v.y * k)) == k * k * MagSquared(v)
  {
    assert (v.x * k) * (v.x * k) == k * k * (v.x * v.x);
    assert (v.y * k) * (v.y * k) == k * k * (v.y * v.y);
  }

  /** Squares are never negative. */
  lemma NonNegativeSquare(a: real)
    ensures a * a >= 0.0
  {
    if a < 0.0 {
      var b := -a;
      assert b * b > 0.0;
      assert a * a == b * b;
    }
  }

  /** A product of two non-negative numbers is non-negative. */
  lemma NonNegativeProduct(a: real, b: real)
    requires a >= 0.0 && b >= 0.0
    ensures a * b >= 0.0
  {
  }

  /** A vector whose squared length is at most k*k has both coordinates within [-k, k]. */
  lemma {:induction false} AxisWithin(v: Vector, k: real)
    requires k >= 0.0 && MagSquared(v) <= k * k
    ensures -k <= v.x <= k && -k <= v.y <= k
  {
    NonNegativeSquare(v.x);
    NonNegativeSquare(v.y);
    CoordinateWithin(v.x, k);
    CoordinateWithin(v.y, k);
  }

  /** A number whose square is at most k*k lies within [-k, k]. */
  lemma CoordinateWithin(c: real, k: real)
    requires k >= 0.0 && c * c <= k * k
    ensures -k <= c <= k
  {
    if c > k {
      SquareIncreasing(k, c);
    } else if c < -k {
      assert (-c) * (-c) == c * c;
      SquareIncreasing(k, -c);
    }
  }
}
