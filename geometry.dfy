/**
 * Planar vectors in pixel coordinates and the floating-point library the
 * angle calculators call (numpy's sqrt, arctan2 and arccos).
 *
 * Dafny has no floating point, so coordinates are `real` and the three
 * library functions are not defined here: they are a parameter of type
 * `Numerics`, and `Lawful` states the only facts the model relies on.
 */
module Geometry {
  /** A point, or the difference of two points (a numpy pair in the source). */
  datatype Point = Point(x: real, y: real)

  const Origin := Point(0.0, 0.0)

  function Sub(p: Point, q: Point): Point { Point(p.x - q.x, p.y - q.y) }

  function Dot(u: Point, v: Point): real { u.x * v.x + u.y * v.y }

  function NormSq(u: Point): real { Dot(u, u) }

  /** `u / d`, component by component. */
  function Div(u: Point, d: real): Point
    requires d != 0.0
  {
    Point(u.x / d, u.y / d)
  }

  /** numpy's square root, arctan2 in degrees and arccos in degrees. */
  datatype Numerics = Numerics(sqrt: real -> real, atan2Deg: (real, real) -> real, arccosDeg: real -> real)

  /** `np.linalg.norm` of a 2-vector. */
  function Norm(n: Numerics, u: Point): real { n.sqrt(NormSq(u)) }

  /**
   * What the model assumes of the library: the square root of a
   * non-negative number is non-negative and squares back to it; arctan2 lies
   * in [-180, 180] degrees and is negative exactly when its first argument
   * is; arccos maps [-1, 1] into [0, 180] degrees.
   */
  ghost predicate Lawful(n: Numerics) {
    && (forall x :: 0.0 <= x ==> 0.0 <= n.sqrt(x) && n.sqrt(x) * n.sqrt(x) == x)
    && (forall y, x :: -180.0 <= n.atan2Deg(y, x) <= 180.0 && (n.atan2Deg(y, x) < 0.0 <==> y < 0.0))
    && (forall c :: -1.0 <= c <= 1.0 ==> 0.0 <= n.arccosDeg(c) <= 180.0)
  }

  lemma ProductZero(a: real, b: real)
    requires a * b == 0.0
    ensures a == 0.0 || b == 0.0
  {
  }

  lemma SquareNonNegative(x: real)
    ensures 0.0 <= x * x
  {
  }

  lemma SquareZero(x: real)
    ensures x * x == 0.0 <==> x == 0.0
  {
    if x * x == 0.0 {
      ProductZero(x, x);
    }
  }

  /** The squared norm is zero exactly for the zero vector. */
  lemma NormSqZero(u: Point)
    ensures 0.0 <= NormSq(u)
    ensures NormSq(u) == 0.0 <==> u == Origin
  {
    SquareNonNegative(u.x);
    SquareNonNegative(u.y);
    SquareZero(u.x);
    SquareZero(u.y);
  }

  /** The facts about one square root that `Lawful` provides. */
  lemma SqrtOf(n: Numerics, x: real)
    requires Lawful(n) && 0.0 <= x
    ensures 0.0 <= n.sqrt(x) && n.sqrt(x) * n.sqrt(x) == x
  {
  }

  lemma RootZero(s: real, q: real)
    requires 0.0 <= s && s * s == q
    ensures s == 0.0 <==> q == 0.0
  {
    SquareZero(s);
  }

  /** The norm is non-negative and squares back to the squared norm. */
  lemma NormSquared(n: Numerics, u: Point)
    requires Lawful(n)
    ensures 0.0 <= Norm(n, u) && Norm(n, u) * Norm(n, u) == NormSq(u)
  {
    NormSqZero(u);
    SqrtOf(n, NormSq(u));
  }

  /** A vector has norm zero exactly when it is the zero vector. */
  lemma NormZero(n: Numerics, u: Point)
    requires Lawful(n)
    ensures 0.0 <= Norm(n, u)
    ensures Norm(n, u) == 0.0 <==> u == Origin
  {
    var q := NormSq(u);
    NormSqZero(u);
    SqrtOf(n, q);
    RootZero(n.sqrt(q), q);
  }

  /** The Cauchy-Schwarz inequality in the plane. */
  lemma CauchySchwarz(u: Point, v: Point)
    ensures Dot(u, v) * Dot(u, v) <= NormSq(u) * NormSq(v)
  {
    var w := u.x * v.y - u.y * v.x;
    SquareNonNegative(w);
    assert NormSq(u) * NormSq(v) - Dot(u, v) * Dot(u, v) == w * w;
  }

  /** If d^2 <= p^2 for a positive p, then d / p lies in [-1, 1]. */
  lemma RatioInUnitInterval(d: real, p: real)
    requires 0.0 < p
    requires d * d <= p * p
    ensures -1.0 <= d / p <= 1.0
  {
    var e := if d < 0.0 then -d else d;
    assert e * e == d * d;
    assert (e - p) * (e + p) <= 0.0;
    assert e <= p;
  }

  /** The cosine bound for vectors of positive lengths a and b. */
  lemma CosineBound(u: Point, v: Point, a: real, b: real)
    requires 0.0 < a && 0.0 < b
    requires a * a == NormSq(u) && b * b == NormSq(v)
    ensures -1.0 <= Dot(u, v) / (a * b) <= 1.0
  {
    CauchySchwarz(u, v);
    assert (a * b) * (a * b) == (a * a) * (b * b);
    RatioInUnitInterval(Dot(u, v), a * b);
  }

  /** The cosine of the angle between two non-zero vectors. */
  function Cosine(n: Numerics, u: Point, v: Point): real
    requires Norm(n, u) != 0.0 && Norm(n, v) != 0.0
  {
    Dot(u, v) / (Norm(n, u) * Norm(n, v))
  }

  /**
   * In exact arithmetic the cosine of the angle between two non-zero vectors
   * lies in [-1, 1].
   */
  lemma CosineInRange(n: Numerics, u: Point, v: Point)
    requires Lawful(n)
    requires Norm(n, u) != 0.0 && Norm(n, v) != 0.0
    ensures -1.0 <= Cosine(n, u, v) <= 1.0
  {
    NormSquared(n, u);
    NormSquared(n, v);
    CosineOfSquareRoots(n, u, v);
  }

  /** The same bound, from the two square-root facts alone. */
  lemma CosineOfSquareRoots(n: Numerics, u: Point, v: Point)
    requires 0.0 < Norm(n, u) && Norm(n, u) * Norm(n, u) == NormSq(u)
    requires 0.0 < Norm(n, v) && Norm(n, v) * Norm(n, v) == NormSq(v)
    ensures -1.0 <= Cosine(n, u, v) <= 1.0
  {
    var a, b := Norm(n, u), Norm(n, v);
    CosineBound(u, v, a, b);
    assert Dot(u, v) / (a * b) == Cosine(n, u, v);
  }

  /** Normalising both vectors first gives the same cosine. */
  lemma DotOfUnits(u: Point, v: Point, a: real, b: real)
    requires a != 0.0 && b != 0.0
    ensures Dot(Div(u, a), Div(v, b)) == Dot(u, v) / (a * b)
  {
    assert (u.x / a) * (v.x / b) == (u.x * v.x) / (a * b);
    assert (u.y / a) * (v.y / b) == (u.y * v.y) / (a * b);
  }
}
