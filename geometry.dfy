/**
 * Plane geometry over exact reals: the engine's `Vector2D` record, squared
 * lengths, and the host's square root, which the model keeps abstract.
 *
 * The engine calls `Math.sqrt` for every distance it compares or divides by.
 * The model receives the square root as a function value `sqrt` and assumes
 * of it only `IsSqrt`: on non-negative arguments it returns the non-negative
 * root. Everything proved about distances follows from that alone.
 */
module Geometry {

  datatype Vector2D = Vector2D(x: real, y: real)

  const Zero := Vector2D(0.0, 0.0)

  function Add(a: Vector2D, b: Vector2D): Vector2D
  {
    Vector2D(a.x + b.x, a.y + b.y)
  }

  /** The displacement from `a` to `b`. */
  function Delta(a: Vector2D, b: Vector2D): Vector2D
  {
    Vector2D(b.x - a.x, b.y - a.y)
  }

  /** `Dot(a, b) >= 0`: `a` does not point away from `b`. */
  function Dot(a: Vector2D, b: Vector2D): real
  {
    a.x * b.x + a.y * b.y
  }

  /** `Cross(a, b) == 0`: `a` and `b` lie on one line through the origin. */
  function Cross(a: Vector2D, b: Vector2D): real
  {
    a.x * b.y - a.y * b.x
  }

  function Sq(a: real): (r: real)
    ensures r >= 0.0
  {
    a * a
  }

  /** Squared Euclidean length of `v`. */
  function Norm2(v: Vector2D): (r: real)
    ensures r >= 0.0
  {
    Sq(v.x) + Sq(v.y)
  }

  /** Squared distance from `a` to `b`, written as the engine writes it (`b - a` per axis). */
  function Dist2(a: Vector2D, b: Vector2D): (r: real)
    ensures r >= 0.0
    ensures a == b ==> r == 0.0
  {
    Sq(b.x - a.x) + Sq(b.y - a.y)
  }

  function Abs(a: real): (r: real)
    ensures r >= 0.0 && (r == a || r == -a)
  {
    if a < 0.0 then -a else a
  }

  function Min(a: real, b: real): (r: real)
    ensures r <= a && r <= b && (r == a || r == b)
  {
    if a <= b then a else b
  }

  function Max(a: real, b: real): (r: real)
    ensures r >= a && r >= b && (r == a || r == b)
  {
    if a >= b then a else b
  }

  /** `base + rate * dt * k` per axis: the engine's Euler step for velocity and for position. */
  function Integrate(base: Vector2D, rate: Vector2D, dt: real, k: real): (r: Vector2D)
    ensures dt == 0.0 ==> r == base
  {
    Vector2D(base.x + rate.x * dt * k, base.y + rate.y * dt * k)
  }

  /** `sqrt` behaves as the square root on the non-negative reals. */
  ghost predicate IsSqrt(sqrt: real -> real)
  {
    forall a: real :: 0.0 <= a ==> 0.0 <= sqrt(a) && sqrt(a) * sqrt(a) == a
  }

  lemma MulPos(a: real, b: real)
    requires a > 0.0 && b > 0.0
    ensures a * b > 0.0
  {
  }

  lemma MulNonNeg(a: real, b: real)
    requires a >= 0.0 && b >= 0.0
    ensures a * b >= 0.0
  {
  }

  lemma ZeroProduct(a: real, b: real)
    requires b != 0.0 && a * b == 0.0
    ensures a == 0.0
  {
  }

  /** `q == a / d * c` undoes its division: `q * d == a * c`. */
  lemma ScaledQuotient(q: real, a: real, d: real, c: real)
    requires d != 0.0 && q == a / d * c
    ensures q * d == a * c
  {
    var u := a / d;
    assert u * d == a;
  }

  /** Squaring is monotone on magnitudes. */
  lemma SqMonotone(a: real, b: real)
    requires Abs(a) <= Abs(b)
    ensures Sq(a) <= Sq(b)
  {
    var p, q := Abs(a), Abs(b);
    MulNonNeg(q - p, q + p);
    assert Sq(a) == p * p && Sq(b) == q * q;
  }

  /** The difference of two squares, as a product. */
  lemma DiffOfSquares(a: real, b: real)
    ensures (a - b) * (a + b) == a * a - b * b
  {
  }

  /** On the non-negative reals, squaring preserves strict order both ways. */
  lemma SquareOrder(s: real, c: real)
    requires 0.0 <= s && 0.0 <= c
    ensures s < c <==> s * s < c * c
    ensures s > c <==> s * s > c * c
  {
    DiffOfSquares(s, c);
    if s < c {
      MulPos(c - s, c + s);
      assert (s - c) * (s + c) < 0.0;
    } else if s > c {
      MulPos(s - c, s + c);
    }
  }

  /**
   * Comparing a root with a non-negative bound is comparing the radicand with
   * the bound's square: the source's `Math.sqrt(d2) < r` and `d2 < r * r`
   * agree whenever `r >= 0`.
   */
  lemma SqrtCompare(sqrt: real -> real, a: real, c: real)
    requires IsSqrt(sqrt) && 0.0 <= a && 0.0 <= c
    ensures sqrt(a) < c <==> a < c * c
    ensures sqrt(a) > c <==> a > c * c
  {
    var s := sqrt(a);
    assert 0.0 <= s && s * s == a;
    SquareOrder(s, c);
  }

  /**
   * Rescaling a vector `v` of length `s > 0` to `r` with `r * s == v * c`
   * gives a vector of length `|c|` on the same line, pointing the same way
   * when `c >= 0`.
   */
  lemma Rescaled(r: Vector2D, v: Vector2D, s: real, c: real)
    requires s > 0.0 && s * s == Norm2(v)
    requires r.x * s == v.x * c && r.y * s == v.y * c
    ensures Norm2(r) == Sq(c)
    ensures Cross(r, v) == 0.0
    ensures c >= 0.0 ==> Dot(r, v) >= 0.0
  {
    var rx, ry, vx, vy := r.x, r.y, v.x, v.y;
    assert s * s == vx * vx + vy * vy;
    var e := rx * rx + ry * ry - c * c;
    var t := e * s;
    assert t * s == 0.0;
    ZeroProduct(t, s);
    ZeroProduct(e, s);
    var cross := rx * vy - ry * vx;
    assert cross * s == 0.0;
    ZeroProduct(cross, s);
    var dot := rx * vx + ry * vy - s * c;
    assert dot * s == 0.0;
    ZeroProduct(dot, s);
    if c >= 0.0 {
      MulNonNeg(s, c);
    }
  }

  /** `v` divided by its length `s` and multiplied by `c`, per axis as the engine writes it. */
  function Resize(v: Vector2D, s: real, c: real): Vector2D
    requires s != 0.0
  {
    Vector2D(v.x / s * c, v.y / s * c)
  }

  /**
   * Resizing a vector by its own length `s > 0` gives a vector of length
   * `|c|` on the same line, pointing the same way when `c >= 0`.
   */
  lemma ResizeLength(v: Vector2D, s: real, c: real)
    requires s > 0.0 && s * s == Norm2(v)
    ensures Norm2(Resize(v, s, c)) == Sq(c)
    ensures Cross(Resize(v, s, c), v) == 0.0
    ensures c >= 0.0 ==> Dot(Resize(v, s, c), v) >= 0.0
  {
    var r := Resize(v, s, c);
    ScaledQuotient(r.x, v.x, s, c);
    ScaledQuotient(r.y, v.y, s, c);
    Rescaled(r, v, s, c);
  }

  /**
   * The engine's normalised pull: the unit vector from `from` toward `to`,
   * scaled by `strength`, or no pull at all unless the distance between the
   * two points is positive (the engine's `distance > 0` guard).
   */
  function Toward(from: Vector2D, to: Vector2D, strength: real, sqrt: real -> real): Vector2D
  {
    var d := sqrt(Dist2(from, to));
    if d > 0.0 then Resize(Delta(from, to), d, strength) else Zero
  }

  /** Between coinciding points there is no pull. */
  lemma TowardZero(from: Vector2D, to: Vector2D, strength: real, sqrt: real -> real)
    requires IsSqrt(sqrt) && Dist2(from, to) == 0.0
    ensures Toward(from, to, strength, sqrt) == Zero
  {
    SqrtCompare(sqrt, Dist2(from, to), 0.0);
  }

  /**
   * A pull between points at non-zero distance has exactly the requested
   * magnitude, lies on the line from `from` to `to`, and points toward `to`
   * when `strength` is non-negative.
   */
  lemma TowardLength(from: Vector2D, to: Vector2D, strength: real, sqrt: real -> real)
    requires IsSqrt(sqrt) && Dist2(from, to) > 0.0
    ensures Norm2(Toward(from, to, strength, sqrt)) == Sq(strength)
    ensures Cross(Toward(from, to, strength, sqrt), Delta(from, to)) == 0.0
    ensures strength >= 0.0 ==> Dot(Toward(from, to, strength, sqrt), Delta(from, to)) >= 0.0
  {
    var a := Dist2(from, to);
    SqrtCompare(sqrt, a, 0.0);
    ResizeLength(Delta(from, to), sqrt(a), strength);
  }
}
